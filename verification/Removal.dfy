/** What taking messages out of a log does to its pairing. */
module Removal {
  import opened Json
  import opened Protocol
  import opened Pairing

  /** The log with every message marked gone made invisible, at unchanged positions. */
  function Blank(all: seq<Seen>, gone: seq<bool>): seq<Seen>
    requires |gone| == |all|
  {
    seq(|all|, i requires 0 <= i < |all| => if gone[i] then all[i].(act := Skip) else all[i])
  }

  /** The log without the messages marked gone. */
  function Kept<T>(all: seq<T>, gone: seq<bool>, n: nat): seq<T>
    requires n <= |all| == |gone|
  {
    if n == 0 then [] else Kept(all, gone, n - 1) + if gone[n - 1] then [] else [all[n - 1]]
  }

  lemma {:induction false} RunPrefix(messages: seq<Seen>, o: Seen, n: nat)
    requires n <= |messages|
    ensures Run(messages + [o], n) == Run(messages, n)
  {
    if n > 0 { RunPrefix(messages, o, n - 1); }
  }

  lemma {:induction false} RunNext(messages: seq<Seen>, o: Seen)
    ensures Run(messages + [o], |messages| + 1) == Step(Run(messages, |messages|), o)
  {
    RunPrefix(messages, o, |messages|);
  }

  lemma {:induction false} StepSkips(s: State, o: Seen)
    requires InRange(s) && o.act.Skip?
    ensures Step(s, o) == s
  {
  }

  /** Pairing the shorter log is pairing the blanked one. */
  lemma {:induction false} RunKept(all: seq<Seen>, gone: seq<bool>, n: nat)
    requires n <= |all| == |gone|
    ensures Run(Kept(all, gone, n), |Kept(all, gone, n)|) == Run(Blank(all, gone), n)
  {
    if n > 0 {
      var before, blank := Kept(all, gone, n - 1), Blank(all, gone);
      RunKept(all, gone, n - 1);
      assert Run(blank, n) == Step(Run(blank, n - 1), blank[n - 1]);
      if gone[n - 1] {
        assert Kept(all, gone, n) == before;
        StepSkips(Run(blank, n - 1), blank[n - 1]);
      } else {
        assert Kept(all, gone, n) == before + [all[n - 1]];
        RunNext(before, all[n - 1]);
      }
    }
  }

  predicate Distinct(all: seq<Seen>) { forall i, j :: 0 <= i < j < |all| ==> all[i].m.num != all[j].m.num }

  /** Request `j` is the last one with the key, and no response with it came since: cancellations do not count. */
  predicate Held(all: seq<Seen>, j: nat, n: nat, key: Key)
    requires n <= |all|
  {
    j < n && RequestKey(all[j]) == Some(key) && forall i :: j < i < n ==>
        RequestKey(all[i]) != Some(key) && ReplyKey(all[i]) != Some(key)
  }

  ghost predicate HeldGone(all: seq<Seen>, gone: seq<bool>, n: nat, key: Key)
    requires n <= |all| == |gone|
  {
    exists j: nat :: Held(all, j, n, key) && gone[j]
  }

  /** Only client requests and responses go, and a response goes exactly when the request held for its id went. */
  ghost predicate Consistent(all: seq<Seen>, gone: seq<bool>) {
    && |gone| == |all|
    && (forall i :: 0 <= i < |all| && gone[i] ==>
          all[i].act.Reply? || (all[i].act.Ask? && all[i].act.from == ClientToServer))
    && (forall i :: 0 <= i < |all| && all[i].act.Reply? ==>
          (gone[i] <==> ReplyKey(all[i]).Some? && HeldGone(all, gone, i, ReplyKey(all[i]).value)))
  }

  /** A removed response whose request no longer waits: it was cancelled. */
  ghost predicate StrayRemoved(all: seq<Seen>, gone: seq<bool>, n: nat)
    requires n < |all| == |gone|
  {
    gone[n] && all[n].act.Reply? && !Matched(all, n)
  }

  /** Kept message `n` acts on kept request `j`, which waits only because the request that displaced it was removed. */
  predicate Revived(all: seq<Seen>, gone: seq<bool>, j: nat, n: nat)
    requires j < n < |all| == |gone|
  {
    var key := RequestKey(all[j]);
    && !gone[n] && !gone[j] && key.Some?
    && Waits(Blank(all, gone), j, n, key.value) && !Waits(all, j, n, key.value)
    && (ReplyKey(all[n]) == key || CancelKey(all[n]) == key
        || (AckKey(all[n]) == key && MaySubscribe(Opened(all[j].m, all[j].act.from))
          && RequestOutcome(all, j, n).status != Subscribed))
  }

  ghost predicate Undisturbed(all: seq<Seen>, gone: seq<bool>)
    requires |gone| == |all|
  {
    && (forall n :: 0 <= n < |all| ==> !StrayRemoved(all, gone, n))
    && (forall j, n :: 0 <= j < n < |all| ==> !Revived(all, gone, j, n))
  }

  function GoneNums(all: seq<Seen>, gone: seq<bool>): set<nat>
    requires |gone| == |all|
  {
    set i | 0 <= i < |all| && gone[i] :: all[i].m.num
  }

  /** The exchanges whose request was not removed. */
  function Without(exchanges: seq<Exchange>, nums: set<nat>): seq<Exchange> {
    if |exchanges| == 0 then [] else
    var e := exchanges[|exchanges| - 1];
    Without(exchanges[..|exchanges| - 1], nums) + if RequestIn(e, nums) then [] else [e]
  }

  predicate RequestIn(e: Exchange, nums: set<nat>) { e.requestSeq.Some? && e.requestSeq.value in nums }

  // ---------------------------------------------------------------- one request's fate

  lemma {:induction false} HeldOnce(all: seq<Seen>, i: nat, j: nat, n: nat, key: Key)
    requires n <= |all| && Held(all, i, n, key) && Held(all, j, n, key)
    ensures i == j
  {
  }

  /** A response goes with the request it answers. */
  lemma {:induction false} GoneTogether(all: seq<Seen>, gone: seq<bool>, j: nat, i: nat, key: Key)
    requires Consistent(all, gone) && i < |all| && ReplyKey(all[i]) == Some(key) && Waits(all, j, i, key)
    ensures gone[i] <==> gone[j]
  {
    assert Held(all, j, i, key);
    if gone[i] {
      var k: nat :| Held(all, k, i, key) && gone[k];
      HeldOnce(all, j, k, i, key);
    }
  }

  /** A kept request's wait ends no earlier in the shorter log, and at the same message if that one is kept. */
  lemma {:induction false} EndsLater(all: seq<Seen>, gone: seq<bool>, j: nat, key: Key)
    requires Consistent(all, gone) && j < |all| && RequestKey(all[j]) == Some(key) && !gone[j]
    ensures var end, later := FirstEnd(all, key, j + 1, |all|), FirstEnd(Blank(all, gone), key, j + 1, |all|);
      && (later.Some? ==> end.Some? && end.value <= later.value)
      && (end.Some? && !gone[end.value] ==> later == end)
      && (end.Some? && gone[end.value] ==> RequestKey(all[end.value]) == Some(key))
  {
    var blank := Blank(all, gone);
    var end, later := FirstEnd(all, key, j + 1, |all|), FirstEnd(blank, key, j + 1, |all|);
    assert forall i :: 0 <= i < |all| ==> (Closes(blank[i], key) <==> Closes(all[i], key) && !gone[i]);
    if end.Some? && ReplyKey(all[end.value]) == Some(key) { GoneTogether(all, gone, j, end.value, key); }
  }

  lemma {:induction false} AcksKept(all: seq<Seen>, gone: seq<bool>, key: Key, from: nat, to: nat)
    requires Consistent(all, gone) && to <= |all|
    ensures AckedWithin(Blank(all, gone), key, from, to) <==> AckedWithin(all, key, from, to)
  {
    assert forall i :: 0 <= i < |all| ==> AckKey(Blank(all, gone)[i]) == AckKey(all[i]);
  }

  /** Undisturbed, a kept request has the same exchange in both logs. */
  lemma {:induction false} SameOutcome(all: seq<Seen>, gone: seq<bool>, j: nat)
    requires Consistent(all, gone) && Undisturbed(all, gone) && j < |all| && all[j].act.Ask? && !gone[j]
    ensures RequestOutcome(Blank(all, gone), j, |all|) == RequestOutcome(all, j, |all|)
  {
    var blank, key := Blank(all, gone), RequestKey(all[j]);
    if key.Some? {
      EndsLater(all, gone, j, key.value);
      var end, later := FirstEnd(all, key.value, j + 1, |all|), FirstEnd(blank, key.value, j + 1, |all|);
      if end.Some? && gone[end.value] {
        var until := if later.Some? then later.value else |all|;
        forall n | end.value < n <= until && n < |all|
          ensures Waits(blank, j, n, key.value) && !Waits(all, j, n, key.value)
        {
          assert Closes(all[end.value], key.value);
        }
        if later.Some? { assert !Revived(all, gone, j, later.value); }
        LateAcks(all, gone, j, key.value, end.value, until);
        AcksKept(all, gone, key.value, j + 1, until);
      } else {
        AcksKept(all, gone, key.value, j + 1, if end.Some? then end.value else |all|);
      }
    }
  }

  /** Acknowledgements after a removed displacing request change nothing. */
  lemma {:induction false} LateAcks(all: seq<Seen>, gone: seq<bool>, j: nat, key: Key, end: nat, until: nat)
    requires Consistent(all, gone) && Undisturbed(all, gone)
    requires j < end < until <= |all| && all[j].act.Ask? && RequestKey(all[j]) == Some(key) && !gone[j] && gone[end]
    requires FirstEnd(all, key, j + 1, |all|) == Some(end) && RequestKey(all[end]) == Some(key)
    requires forall n :: end < n < until ==> Waits(Blank(all, gone), j, n, key) && !Waits(all, j, n, key)
    ensures MaySubscribe(Opened(all[j].m, all[j].act.from)) ==>
      (AckedWithin(all, key, j + 1, end) <==> AckedWithin(all, key, j + 1, until))
  {
    if MaySubscribe(Opened(all[j].m, all[j].act.from)) && AckedWithin(all, key, j + 1, until) {
      var a: nat :| j + 1 <= a < until && AckKey(all[a]) == Some(key);
      if end < a {
        FirstEndEarlier(all, key, j + 1, a, end);
        assert !Revived(all, gone, j, a);
      }
    }
  }

  lemma {:induction false} FirstEndEarlier(all: seq<Seen>, key: Key, from: nat, n: nat, end: nat)
    requires from <= end < n <= |all| && FirstEnd(all, key, from, |all|) == Some(end)
    ensures FirstEnd(all, key, from, n) == Some(end)
    decreases n - from
  {
    if from < end { FirstEndEarlier(all, key, from + 1, n, end); }
  }

  /** A revived request has a different exchange in the shorter log. */
  lemma {:induction false} RevivedDiffers(all: seq<Seen>, gone: seq<bool>, j: nat, n: nat)
    requires Consistent(all, gone) && j < n < |all| && all[j].act.Ask? && Revived(all, gone, j, n)
    ensures RequestOutcome(Blank(all, gone), j, |all|) != RequestOutcome(all, j, |all|)
  {
    var blank, key := Blank(all, gone), RequestKey(all[j]).value;
    EndsLater(all, gone, j, key);
    var end, later := FirstEnd(all, key, j + 1, |all|), FirstEnd(blank, key, j + 1, |all|);
    assert end.Some? && end.value < n && gone[end.value];
    if !Closes(all[n], key) {
      FirstEndEarlier(all, key, j + 1, n, end.value);
      assert AckKey(blank[n]) == Some(key);
      assert AckedWithin(blank, key, j + 1, if later.Some? then later.value else |all|);
    } else {
      assert Closes(blank[n], key);
    }
  }

  // ---------------------------------------------------------------- which messages start an exchange

  lemma {:induction false} SameStarts(all: seq<Seen>, gone: seq<bool>, i: nat)
    requires Consistent(all, gone) && Undisturbed(all, gone) && i < |all|
    ensures Starts(Blank(all, gone), i) <==> Starts(all, i) && !gone[i]
  {
    var blank := Blank(all, gone);
    if gone[i] {
      assert !StrayRemoved(all, gone, i);
      assert blank[i].act.Skip?;
    } else if all[i].act.Reply? && ReplyKey(all[i]).Some? {
      var key := ReplyKey(all[i]).value;
      if Matched(blank, i) {
        var j: nat :| Waits(blank, j, i, key);
        assert !Revived(all, gone, j, i);
        assert Waits(all, j, i, key);
      }
      if Matched(all, i) {
        var j: nat :| Waits(all, j, i, key);
        GoneTogether(all, gone, j, i, key);
        assert Waits(blank, j, i, key);
      }
    }
  }

  // ---------------------------------------------------------------- the whole lists

  /** The exchange each message starts, if any. */
  ghost function Fate(messages: seq<Seen>, i: nat): Option<Exchange>
    requires i < |messages|
  {
    if Starts(messages, i) then Some(Outcome(messages, i, |messages|)) else None
  }

  ghost function Fates(messages: seq<Seen>): (fates: seq<Option<Exchange>>)
    ensures |fates| == |messages|
  {
    seq(|messages|, i requires 0 <= i < |messages| => Fate(messages, i))
  }

  function Present<T>(fates: seq<Option<T>>): seq<T> {
    if |fates| == 0 then [] else
    var last := fates[|fates| - 1];
    Present(fates[..|fates| - 1]) + if last.Some? then [last.value] else []
  }

  lemma {:induction false} PresentHas<T>(fates: seq<Option<T>>, e: T)
    ensures e in Present(fates) <==> Some(e) in fates
  {
    if |fates| > 0 {
      PresentHas(fates[..|fates| - 1], e);
      assert fates == fates[..|fates| - 1] + [fates[|fates| - 1]];
    }
  }

  lemma {:induction false} WithoutAppend(exchanges: seq<Exchange>, e: Exchange, nums: set<nat>)
    ensures Without(exchanges + [e], nums) == Without(exchanges, nums) + if RequestIn(e, nums) then [] else [e]
  {
    assert (exchanges + [e])[..|exchanges|] == exchanges;
  }

  lemma {:induction false} WithoutHas(exchanges: seq<Exchange>, nums: set<nat>, e: Exchange)
    ensures e in Without(exchanges, nums) <==> e in exchanges && !RequestIn(e, nums)
  {
    if |exchanges| > 0 {
      var last := |exchanges| - 1;
      WithoutHas(exchanges[..last], nums, e);
      assert e in exchanges <==> e in exchanges[..last] || e == exchanges[last];
    }
  }

  /** Blotting out fates whose request is in the set is leaving those exchanges out. */
  lemma {:induction false} PresentWithout(fates: seq<Option<Exchange>>, fewer: seq<Option<Exchange>>, nums: set<nat>)
    requires |fates| == |fewer|
    requires forall i :: 0 <= i < |fates| ==>
      fewer[i] == if fates[i].Some? && RequestIn(fates[i].value, nums) then None else fates[i]
    ensures Present(fewer) == Without(Present(fates), nums)
  {
    if |fates| > 0 {
      var last := |fates| - 1;
      PresentWithout(fates[..last], fewer[..last], nums);
      if fates[last].Some? {
        assert Present(fates) == Present(fates[..last]) + [fates[last].value];
        WithoutAppend(Present(fates[..last]), fates[last].value, nums);
      } else {
        assert Present(fates) == Present(fates[..last]);
      }
    }
  }

  predicate Ascending(picked: seq<nat>, n: nat) {
    (forall x, y :: 0 <= x < y < |picked| ==> picked[x] < picked[y])
      && (forall x :: 0 <= x < |picked| ==> picked[x] < n)
  }

  lemma {:induction false} LastPicked(picked: seq<nat>, last: nat)
    requires Ascending(picked, last + 1)
    ensures if last in picked then |picked| > 0 && picked[|picked| - 1] == last
      && Ascending(picked[..|picked| - 1], last)
            else Ascending(picked, last)
  {
    if last in picked { assert picked[|picked| - 1] <= last; }
  }

  /** The values stand at the ascending positions that have one. */
  predicate Picks<T(==)>(picked: seq<nat>, fates: seq<Option<T>>, values: seq<T>) {
    && Ascending(picked, |fates|) && |values| == |picked|
    && (forall x :: 0 <= x < |picked| ==> fates[picked[x]] == Some(values[x]))
    && forall i :: 0 <= i < |fates| && fates[i].Some? ==> i in picked
  }

  lemma {:induction false} PickedLast<T>(picked: seq<nat>, fates: seq<Option<T>>, values: seq<T>)
    requires Picks(picked, fates, values) && |fates| > 0 && fates[|fates| - 1].Some?
    ensures var x := |picked| - 1;
      && 0 <= x && picked[x] == |fates| - 1 && fates[|fates| - 1] == Some(values[x])
      && Picks(picked[..x], fates[..|fates| - 1], values[..x])
  {
    LastPicked(picked, |fates| - 1);
    var x, init := |picked| - 1, fates[..|fates| - 1];
    assert fates[picked[x]] == Some(values[x]);
    forall y | 0 <= y < x ensures init[picked[..x][y]] == Some(values[..x][y]) {
      assert fates[picked[y]] == Some(values[y]);
    }
    forall i | 0 <= i < |init| && init[i].Some? ensures i in picked[..x] {
      assert fates[i].Some?;
      var y :| 0 <= y < |picked| && picked[y] == i;
      assert picked[..x][y] == i;
    }
  }

  lemma {:induction false} LastNotPicked<T>(picked: seq<nat>, fates: seq<Option<T>>, values: seq<T>)
    requires Picks(picked, fates, values) && |fates| > 0 && fates[|fates| - 1].None?
    ensures Picks(picked, fates[..|fates| - 1], values)
  {
    var last, init := |fates| - 1, fates[..|fates| - 1];
    LastPicked(picked, last);
    forall x | 0 <= x < |picked| ensures picked[x] < last && init[picked[x]] == Some(values[x]) {
      assert fates[picked[x]] == Some(values[x]);
    }
  }

  lemma {:induction false} AscendingShort(picked: seq<nat>, n: nat)
    requires Ascending(picked, n)
    ensures |picked| <= n
  {
    if |picked| > 0 {
      var last := picked[|picked| - 1];
      AscendingShort(picked[..|picked| - 1], last);
    }
  }

  /** Listing the values at the ascending positions that have one is listing all values. */
  lemma {:induction false} PickedPresent<T>(picked: seq<nat>, fates: seq<Option<T>>, values: seq<T>)
    requires Picks(picked, fates, values)
    ensures values == Present(fates)
  {
    if |fates| == 0 {
      AscendingShort(picked, 0);
    } else if fates[|fates| - 1].Some? {
      var x := |picked| - 1;
      PickedLast(picked, fates, values);
      PickedPresent(picked[..x], fates[..|fates| - 1], values[..x]);
      assert values == values[..x] + [values[x]];
    } else {
      LastNotPicked(picked, fates, values);
      PickedPresent(picked, fates[..|fates| - 1], values);
    }
  }

  lemma {:induction false} RunIsFates(messages: seq<Seen>)
    ensures Run(messages, |messages|).exchanges == Present(Fates(messages))
  {
    RunMeets(messages, |messages|);
    PickedPresent(Starters(messages, |messages|), Fates(messages), Run(messages, |messages|).exchanges);
  }

  /** An exchange carries the number of the message that starts it. */
  predicate Numbered(all: seq<Seen>, i: nat, fate: Option<Exchange>)
    requires i < |all|
  {
    fate.Some? ==>
      if all[i].act.Ask? then fate.value.requestSeq == Some(all[i].m.num)
      else all[i].act.Reply? && fate.value.requestSeq == None && fate.value.responseSeq == Some(all[i].m.num)
  }

  lemma {:induction false} FateNumbered(messages: seq<Seen>, i: nat)
    requires i < |messages|
    ensures Numbered(messages, i, Fate(messages, i))
  {
  }

  lemma {:induction false} GoneNumsIff(all: seq<Seen>, gone: seq<bool>, i: nat)
    requires |gone| == |all| && Distinct(all) && i < |all|
    ensures all[i].m.num in GoneNums(all, gone) <==> gone[i]
  {
  }

  /** Undisturbed, an exchange goes exactly when the message that starts it goes, and otherwise stays as it is. */
  lemma {:induction false} SameFate(all: seq<Seen>, gone: seq<bool>, i: nat)
    requires Distinct(all) && Consistent(all, gone) && Undisturbed(all, gone) && i < |all|
    ensures var fate := Fate(all, i);
      Fate(Blank(all, gone), i) == if fate.Some? && RequestIn(fate.value, GoneNums(all, gone)) then None else fate
  {
    FateNumbered(all, i);
    GoneNumsIff(all, gone, i);
    SameStarts(all, gone, i);
    if Starts(all, i) {
      if gone[i] {
        assert !StrayRemoved(all, gone, i);
      } else if all[i].act.Ask? {
        SameOutcome(all, gone, i);
      }
    }
  }

  /** A removed response without a waiting request leaves an orphan in the full log, and nothing in the shorter one. */
  lemma {:induction false} StrayIsLost(all: seq<Seen>, blank: seq<Seen>, fates: seq<Option<Exchange>>,
                                       fewer: seq<Option<Exchange>>, nums: set<nat>, n: nat)
    requires Distinct(all) && |blank| == |fates| == |fewer| == |all| && n < |all| && blank[n].act.Skip?
      && all[n].act.Reply?
    requires forall i :: 0 <= i < |all| ==> blank[i].m == all[i].m
    requires forall i :: 0 <= i < |all| ==> Numbered(blank, i, fewer[i])
    requires fates[n].Some? && Numbered(all, n, fates[n])
    ensures Present(fewer) != Without(Present(fates), nums)
  {
    var e := fates[n].value;
    PresentHas(fates, e);
    WithoutHas(Present(fates), nums, e);
    PresentHas(fewer, e);
    assert forall i :: 0 <= i < |fewer| ==> fewer[i] != Some(e);
  }

  /** A request whose exchange changes is not found unchanged elsewhere. */
  lemma {:induction false} ChangedIsLost(all: seq<Seen>, fates: seq<Option<Exchange>>, fewer: seq<Option<Exchange>>,
                                         nums: set<nat>, j: nat)
    requires Distinct(all) && |fates| == |fewer| == |all| && j < |all| && all[j].act.Ask?
    requires forall i :: 0 <= i < |all| ==> Numbered(all, i, fates[i])
    requires fewer[j].Some? && Numbered(all, j, fewer[j]) && fates[j] != fewer[j]
    ensures Present(fewer) != Without(Present(fates), nums)
  {
    var e := fewer[j].value;
    PresentHas(fates, e);
    WithoutHas(Present(fates), nums, e);
    PresentHas(fewer, e);
    assert forall i :: 0 <= i < |fates| ==> fates[i] != Some(e);
  }

  lemma {:induction false} DisturbedDiffers(all: seq<Seen>, gone: seq<bool>)
    requires Distinct(all) && Consistent(all, gone) && !Undisturbed(all, gone)
    ensures Present(Fates(Blank(all, gone))) != Without(Present(Fates(all)), GoneNums(all, gone))
  {
    var blank, nums := Blank(all, gone), GoneNums(all, gone);
    forall i | 0 <= i < |all| ensures Numbered(all, i, Fates(all)[i]) { FateNumbered(all, i); }
    forall i | 0 <= i < |all| ensures Numbered(blank, i, Fates(blank)[i]) { FateNumbered(blank, i); }
    if n: nat :| n < |all| && StrayRemoved(all, gone, n) {
      StrayIsLost(all, blank, Fates(all), Fates(blank), nums, n);
    } else {
      var j: nat, n: nat :| j < n < |all| && Revived(all, gone, j, n);
      RevivedDiffers(all, gone, j, n);
      ChangedIsLost(all, Fates(all), Fates(blank), nums, j);
    }
  }

  /** Removing consistently marked messages commutes with pairing exactly when the removal disturbs nothing. */
  lemma {:induction false} RemovalIff(all: seq<Seen>, gone: seq<bool>)
    requires Distinct(all) && Consistent(all, gone)
    ensures var kept := Kept(all, gone, |all|);
      Run(kept, |kept|).exchanges == Without(Run(all, |all|).exchanges, GoneNums(all, gone)) <==> Undisturbed(all, gone)
  {
    RunKept(all, gone, |all|);
    RunIsFates(all);
    RunIsFates(Blank(all, gone));
    if Undisturbed(all, gone) {
      forall i | 0 <= i < |all|
        ensures var fate := Fates(all)[i];
          Fates(Blank(all, gone))[i] == if fate.Some? && RequestIn(fate.value, GoneNums(all, gone)) then None else fate
      {
        SameFate(all, gone, i);
      }
      PresentWithout(Fates(all), Fates(Blank(all, gone)), GoneNums(all, gone));
    } else {
      DisturbedDiffers(all, gone);
    }
  }

  lemma {:induction false} NotificationsStay(all: seq<Seen>, gone: seq<bool>, n: nat)
    requires Consistent(all, gone) && n <= |all|
    ensures NotificationsIn(Blank(all, gone), n) == NotificationsIn(all, n)
  {
    if n > 0 { NotificationsStay(all, gone, n - 1); }
  }

  lemma {:induction false} KeptNotifications(all: seq<Seen>, gone: seq<bool>)
    requires Consistent(all, gone)
    ensures var kept := Kept(all, gone, |all|); Run(kept, |kept|).notifications == Run(all, |all|).notifications
  {
    RunKept(all, gone, |all|);
    RunMeets(all, |all|);
    RunMeets(Blank(all, gone), |all|);
    NotificationsStay(all, gone, |all|);
  }

  // ---------------------------------------------------------------- a simple way to be undisturbed

  /** No cancellations, and no client request takes an id that is still in flight. */
  predicate Calm(all: seq<Seen>) {
    && (forall i :: 0 <= i < |all| ==> CancelKey(all[i]).None?)
    && (forall n :: 0 <= n < |all| && all[n].act.Ask? && all[n].act.from == ClientToServer && all[n].act.key.Some? ==>
          forall j :: 0 <= j < n ==> !Waits(all, j, n, all[n].act.key.value))
  }

  lemma {:induction false} CalmUndisturbed(all: seq<Seen>, gone: seq<bool>)
    requires Consistent(all, gone) && Calm(all)
    ensures Undisturbed(all, gone)
  {
    forall n | 0 <= n < |all| ensures !StrayRemoved(all, gone, n) {
      if gone[n] && all[n].act.Reply? {
        var j: nat :| Held(all, j, n, ReplyKey(all[n]).value) && gone[j];
        assert Waits(all, j, n, ReplyKey(all[n]).value);
      }
    }
    forall j, n | 0 <= j < n < |all| ensures !Revived(all, gone, j, n) {
      if !gone[j] && RequestKey(all[j]).Some? { CalmNotRevived(all, gone, j, n, RequestKey(all[j]).value); }
    }
  }

  lemma {:induction false} CalmNotRevived(all: seq<Seen>, gone: seq<bool>, j: nat, n: nat, key: Key)
    requires Consistent(all, gone) && Calm(all) && j < n < |all| && !gone[j] && RequestKey(all[j]) == Some(key)
    ensures Waits(Blank(all, gone), j, n, key) ==> Waits(all, j, n, key)
  {
    EndsLater(all, gone, j, key);
    var end := FirstEnd(all, key, j + 1, |all|);
    if end.Some? && end.value < n {
      if gone[end.value] {
        assert Waits(all, j, end.value, key);
      } else {
        assert Closes(Blank(all, gone)[end.value], key);
      }
    }
  }
}
