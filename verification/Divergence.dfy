/** Comparing two sessions: alignment by occurrence, deltas per exchange, and the first point where they part. */
module Divergence {
  import opened Json
  import opened Protocol
  import opened Pairing
  import opened Pointers
  import Policy
  import Session

  // ---------------------------------------------------------------- alignment

  datatype Aligned = Aligned(key: string, exchange: Exchange)

  /** Origin, method and tool; orphans and exchanges without a method are not aligned. */
  function BaseOf(e: Exchange): Option<string> {
    if e.status.Orphan? || e.method_.None? then None else
    Some((if e.origin.ServerToClient? then "server:" else "") + e.method_.value
         + if e.tool.Some? then " " + e.tool.value else "")
  }

  function KeyText(base: string, ordinal: nat): string { base + "#" + Decimal(ordinal) }

  function Occurrences(exchanges: seq<Exchange>, n: nat, base: string): nat
    requires n <= |exchanges|
  {
    if n == 0 then 0 else Occurrences(exchanges, n - 1, base) + if BaseOf(exchanges[n - 1]) == Some(base) then 1 else 0
  }

  function Alignment(exchanges: seq<Exchange>, n: nat): seq<Aligned>
    requires n <= |exchanges|
  {
    if n == 0 then [] else
    var e := exchanges[n - 1];
    Alignment(exchanges, n - 1) +
    match BaseOf(e) case Some(base) => [Aligned(KeyText(base, Occurrences(exchanges, n - 1, base)), e)] case None => []
  }

  function CountOf(counts: map<string, nat>, base: string): nat { if base in counts then counts[base] else 0 }

  method AlignmentKeys(exchanges: seq<Exchange>) returns (keys: seq<Aligned>)
    ensures keys == Alignment(exchanges, |exchanges|)
  {
    var counts: map<string, nat> := map[];
    keys := [];
    for i := 0 to |exchanges|
      invariant keys == Alignment(exchanges, i)
      invariant forall base :: CountOf(counts, base) == Occurrences(exchanges, i, base)
    {
      match BaseOf(exchanges[i]) {
        case Some(base) =>
          var ordinal := CountOf(counts, base);
          keys := keys + [Aligned(KeyText(base, ordinal), exchanges[i])];
          counts := counts[base := ordinal + 1];
        case None =>
      }
    }
  }

  /** The last `#` separates the ordinal, whatever the base holds. */
  lemma {:induction false} KeyTextInjective(a: string, i: nat, b: string, j: nat)
    requires KeyText(a, i) == KeyText(b, j)
    ensures a == b && i == j
  {
    var s, di, dj := KeyText(a, i), Decimal(i), Decimal(j);
    assert s[|a|] == '#' && s[|b|] == '#';
    assert forall k :: |a| < k < |s| ==> IsDigit(s[k]) by {
      assert forall k :: |a| < k < |s| ==> s[k] == di[k - |a| - 1];
    }
    assert forall k :: |b| < k < |s| ==> IsDigit(s[k]) by {
      assert forall k :: |b| < k < |s| ==> s[k] == dj[k - |b| - 1];
    }
    assert |a| == |b|;
    assert a == s[..|a|] == b && di == s[|a| + 1..] == dj;
    DecimalInjective(i, j);
  }

  predicate DistinctKeys(keys: seq<Aligned>) { forall i, j :: 0 <= i < j < |keys| ==> keys[i].key != keys[j].key }

  /** An aligned exchange's key is its base with an ordinal below the number of occurrences so far. */
  lemma {:induction false} KeyOrigin(exchanges: seq<Exchange>, n: nat, x: nat) returns (base: string, ordinal: nat)
    requires n <= |exchanges| && x < |Alignment(exchanges, n)|
    ensures Alignment(exchanges, n)[x].key == KeyText(base, ordinal) && ordinal < Occurrences(exchanges, n, base)
  {
    var e := exchanges[n - 1];
    if x < |Alignment(exchanges, n - 1)| {
      base, ordinal := KeyOrigin(exchanges, n - 1, x);
    } else {
      base, ordinal := BaseOf(e).value, Occurrences(exchanges, n - 1, BaseOf(e).value);
    }
  }

  /** Alignment keys name exchanges uniquely. */
  lemma {:induction false} AlignmentDistinct(exchanges: seq<Exchange>, n: nat)
    requires n <= |exchanges|
    ensures DistinctKeys(Alignment(exchanges, n))
  {
    if n > 0 {
      AlignmentDistinct(exchanges, n - 1);
      var before, e := Alignment(exchanges, n - 1), exchanges[n - 1];
      if BaseOf(e).Some? {
        var newest := Occurrences(exchanges, n - 1, BaseOf(e).value);
        forall x | 0 <= x < |before| ensures before[x].key != KeyText(BaseOf(e).value, newest) {
          var base, ordinal := KeyOrigin(exchanges, n - 1, x);
          if before[x].key == KeyText(BaseOf(e).value, newest) {
            KeyTextInjective(base, ordinal, BaseOf(e).value, newest);
          }
        }
      }
    }
  }

  // ---------------------------------------------------------------- normalization

  /** Pointers whose values are ignored, and names ignored anywhere. */
  datatype IgnoreRules = IgnoreRules(pointers: seq<string>, volatileKeys: seq<string>)

  predicate Volatile(key: string, rules: IgnoreRules) { Policy.NormalizeKey(key) in rules.volatileKeys }

  function Normal(v: Json, pointer: string, rules: IgnoreRules): Option<Json>
    decreases v, 1, 0
  {
    if pointer in rules.pointers then None else
    match v
    case Obj(fields) =>
      Some(Obj(map k | k in fields && !Volatile(k, rules) && Normal(fields[k], ChildPointer(pointer, k), rules).Some?
                   :: Normal(fields[k], ChildPointer(pointer, k), rules).value))
    case Arr(items) => Some(Arr(NormalItems(v, |items|, pointer, rules)))
    case _ => Some(v)
  }

  function NormalItems(v: Json, n: nat, pointer: string, rules: IgnoreRules): seq<Json>
    requires v.Arr? && n <= |v.items|
    decreases v, 0, n
  {
    if n == 0 then [] else
    var kept := Normal(v.items[n - 1], pointer + "/" + Decimal(n - 1), rules);
    NormalItems(v, n - 1, pointer, rules) + if kept.Some? then [kept.value] else []
  }

  function Normalize(v: Json, rules: IgnoreRules): Json {
    match Normal(v, "", rules) case Some(w) => w case None => Null
  }

  /** No ignored name is left at any depth. */
  predicate NoVolatile(v: Json, rules: IgnoreRules)
    decreases v
  {
    match v
    case Obj(fields) => forall k :: k in fields ==> !Volatile(k, rules) && NoVolatile(fields[k], rules)
    case Arr(items) => forall i :: 0 <= i < |items| ==> NoVolatile(items[i], rules)
    case _ => true
  }

  lemma {:induction false} NormalClean(v: Json, pointer: string, rules: IgnoreRules)
    requires Normal(v, pointer, rules).Some?
    ensures NoVolatile(Normal(v, pointer, rules).value, rules)
    decreases v, 1, 0
  {
    var w := Normal(v, pointer, rules).value;
    if v.Obj? {
      forall k | k in w.fields ensures !Volatile(k, rules) && NoVolatile(w.fields[k], rules) {
        NormalClean(v.fields[k], ChildPointer(pointer, k), rules);
      }
    } else if v.Arr? {
      NormalItemsClean(v, |v.items|, pointer, rules);
    }
  }

  lemma {:induction false} NormalItemsClean(v: Json, n: nat, pointer: string, rules: IgnoreRules)
    requires v.Arr? && n <= |v.items|
    ensures forall w :: w in NormalItems(v, n, pointer, rules) ==> NoVolatile(w, rules)
    decreases v, 0, n
  {
    if n > 0 {
      var child := pointer + "/" + Decimal(n - 1);
      NormalItemsClean(v, n - 1, pointer, rules);
      if Normal(v.items[n - 1], child, rules).Some? { NormalClean(v.items[n - 1], child, rules); }
    }
  }

  /** Nothing in the tree has an ignored name or an ignored place. */
  predicate Untouched(v: Json, pointer: string, rules: IgnoreRules)
    decreases v
  {
    pointer !in rules.pointers &&
    match v
    case Obj(fields) =>
      forall k :: k in fields ==> !Volatile(k, rules) && Untouched(fields[k], ChildPointer(pointer, k), rules)
    case Arr(items) => forall i :: 0 <= i < |items| ==> Untouched(items[i], pointer + "/" + Decimal(i), rules)
    case _ => true
  }

  /** What normalization keeps it keeps unchanged, and it keeps exactly the untouched. */
  lemma {:induction false} NormalKeeps(v: Json, pointer: string, rules: IgnoreRules)
    ensures Untouched(v, pointer, rules) <==> Normal(v, pointer, rules) == Some(v)
    decreases v, 1, 0
  {
    if v.Obj? {
      forall k | k in v.fields
        ensures Untouched(v.fields[k], ChildPointer(pointer, k), rules) <==>
          Normal(v.fields[k], ChildPointer(pointer, k), rules) == Some(v.fields[k])
      {
        NormalKeeps(v.fields[k], ChildPointer(pointer, k), rules);
      }
      if pointer !in rules.pointers {
        var kept := Normal(v, pointer, rules).value.fields;
        if Untouched(v, pointer, rules) { assert kept == v.fields; }
        if kept == v.fields {
          forall k | k in v.fields
            ensures !Volatile(k, rules) && Untouched(v.fields[k], ChildPointer(pointer, k), rules)
          {
            assert k in kept && kept[k] == v.fields[k];
          }
        }
      }
    } else if v.Arr? {
      NormalItemsKeep(v, |v.items|, pointer, rules);
      assert v.items[..|v.items|] == v.items;
    }
  }

  lemma {:induction false} NormalItemsKeep(v: Json, n: nat, pointer: string, rules: IgnoreRules)
    requires v.Arr? && n <= |v.items|
    ensures |NormalItems(v, n, pointer, rules)| <= n
    ensures (forall i :: 0 <= i < n ==> Untouched(v.items[i], pointer + "/" + Decimal(i), rules)) <==>
      NormalItems(v, n, pointer, rules) == v.items[..n]
    decreases v, 0, n
  {
    if n > 0 {
      NormalItemsKeep(v, n - 1, pointer, rules);
      NormalKeeps(v.items[n - 1], pointer + "/" + Decimal(n - 1), rules);
      var before, after := NormalItems(v, n - 1, pointer, rules), NormalItems(v, n, pointer, rules);
      assert v.items[..n] == v.items[..n - 1] + [v.items[n - 1]];
      if after == v.items[..n] {
        assert after[..n - 1] == before;
        assert after[n - 1] == v.items[n - 1];
      }
    }
  }

  /** How many of the first items are not ignored. */
  function KeptItems(n: nat, pointer: string, rules: IgnoreRules): nat {
    if n == 0 then 0
    else KeptItems(n - 1, pointer, rules) + if pointer + "/" + Decimal(n - 1) in rules.pointers then 0 else 1
  }

  /** What is kept of the tree at `was` is met again by no ignored pointer at `now`: an item moves up by the ignored
   *  ones before it. */
  predicate Settled(v: Json, was: string, now: string, rules: IgnoreRules)
    decreases v
  {
    now !in rules.pointers &&
    match v
    case Obj(fields) =>
      forall k :: k in fields && !Volatile(k, rules) && ChildPointer(was, k) !in rules.pointers ==>
        Settled(fields[k], ChildPointer(was, k), ChildPointer(now, k), rules)
    case Arr(items) =>
      forall i :: 0 <= i < |items| && was + "/" + Decimal(i) !in rules.pointers ==>
        Settled(items[i], was + "/" + Decimal(i), now + "/" + Decimal(KeptItems(i, was, rules)), rules)
    case _ => true
  }

  /** The same of the first `n` items, one after the other. */
  predicate SettledItems(v: Json, n: nat, was: string, now: string, rules: IgnoreRules)
    requires v.Arr? && n <= |v.items|
  {
    n == 0 || (SettledItems(v, n - 1, was, now, rules) && SettledItem(v, n - 1, was, now, rules))
  }

  predicate SettledItem(v: Json, i: nat, was: string, now: string, rules: IgnoreRules)
    requires v.Arr? && i < |v.items|
  {
    was + "/" + Decimal(i) !in rules.pointers ==>
      Settled(v.items[i], was + "/" + Decimal(i), now + "/" + Decimal(KeptItems(i, was, rules)), rules)
  }

  lemma {:induction false} SettledItemsAll(v: Json, n: nat, was: string, now: string, rules: IgnoreRules)
    requires v.Arr? && n <= |v.items|
    ensures SettledItems(v, n, was, now, rules) <==> forall i :: 0 <= i < n ==> SettledItem(v, i, was, now, rules)
  {
    if n > 0 { SettledItemsAll(v, n - 1, was, now, rules); }
  }

  /** Every item passes a test at its index. */
  predicate AllItems(test: (Json, nat) -> bool, items: seq<Json>) {
    |items| == 0 || (AllItems(test, items[..|items| - 1]) && test(items[|items| - 1], |items| - 1))
  }

  lemma {:induction false} AllItemsIff(test: (Json, nat) -> bool, items: seq<Json>)
    ensures AllItems(test, items) <==> forall i: nat :: i < |items| ==> test(items[i], i)
  {
    if |items| > 0 {
      var init := items[..|items| - 1];
      AllItemsIff(test, init);
      assert forall i: nat :: i < |init| ==> init[i] == items[i];
    }
  }

  lemma {:induction false} AllItemsNext(test: (Json, nat) -> bool, items: seq<Json>, x: Json)
    ensures AllItems(test, items + [x]) <==> AllItems(test, items) && test(x, |items|)
  {
    assert (items + [x])[..|items|] == items;
  }

  function UntouchedTest(now: string, rules: IgnoreRules): (Json, nat) -> bool {
    (x: Json, i: nat) => Untouched(x, now + "/" + Decimal(i), rules)
  }

  predicate UntouchedItems(items: seq<Json>, now: string, rules: IgnoreRules) {
    AllItems(UntouchedTest(now, rules), items)
  }

  lemma {:induction false} SettledArray(v: Json, was: string, now: string, rules: IgnoreRules)
    requires v.Arr? && now !in rules.pointers
    ensures Settled(v, was, now, rules) <==> SettledItems(v, |v.items|, was, now, rules)
  {
    SettledItemsAll(v, |v.items|, was, now, rules);
    forall i | 0 <= i < |v.items|
      ensures SettledItem(v, i, was, now, rules) <==>
          (was + "/" + Decimal(i) !in rules.pointers ==>
             Settled(v.items[i], was + "/" + Decimal(i), now + "/" + Decimal(KeptItems(i, was, rules)), rules))
    {
    }
  }

  lemma {:induction false} UntouchedArray(items: seq<Json>, now: string, rules: IgnoreRules)
    requires now !in rules.pointers
    ensures Untouched(Arr(items), now, rules) <==> UntouchedItems(items, now, rules)
  {
    var test := UntouchedTest(now, rules);
    AllItemsIff(test, items);
    forall i: nat | i < |items| ensures test(items[i], i) <==> Untouched(items[i], now + "/" + Decimal(i), rules) {}
  }

  /** The item, if it is kept, is untouched at its new place. */
  predicate UntouchedItem(v: Json, i: nat, was: string, now: string, rules: IgnoreRules)
    requires v.Arr? && i < |v.items|
  {
    var kept := Normal(v.items[i], was + "/" + Decimal(i), rules);
    kept.Some? ==> Untouched(kept.value, now + "/" + Decimal(KeptItems(i, was, rules)), rules)
  }

  lemma {:induction false} UntouchedItemsNext(v: Json, n: nat, was: string, now: string, rules: IgnoreRules)
    requires v.Arr? && n < |v.items| && |NormalItems(v, n, was, rules)| == KeptItems(n, was, rules)
    ensures |NormalItems(v, n + 1, was, rules)| == KeptItems(n + 1, was, rules)
    ensures UntouchedItems(NormalItems(v, n + 1, was, rules), now, rules) <==>
      UntouchedItems(NormalItems(v, n, was, rules), now, rules) && UntouchedItem(v, n, was, now, rules)
  {
    var items, kept := NormalItems(v, n, was, rules), Normal(v.items[n], was + "/" + Decimal(n), rules);
    assert NormalItems(v, n + 1, was, rules) == items + if kept.Some? then [kept.value] else [];
    if kept.Some? {
      AllItemsNext(UntouchedTest(now, rules), items, kept.value);
    } else {
      assert items + [] == items;
    }
  }

  lemma {:induction false} SettledIff(v: Json, was: string, now: string, rules: IgnoreRules)
    requires was !in rules.pointers
    ensures Settled(v, was, now, rules) <==> Untouched(Normal(v, was, rules).value, now, rules)
    decreases v, 1, 0
  {
    var w := Normal(v, was, rules).value;
    if v.Obj? {
      forall k | k in v.fields && !Volatile(k, rules) && ChildPointer(was, k) !in rules.pointers
        ensures k in w.fields && (Settled(v.fields[k], ChildPointer(was, k), ChildPointer(now, k), rules)
          <==> Untouched(w.fields[k], ChildPointer(now, k), rules))
      {
        SettledIff(v.fields[k], ChildPointer(was, k), ChildPointer(now, k), rules);
      }
    } else if v.Arr? && now !in rules.pointers {
      SettledItemsIff(v, |v.items|, was, now, rules);
      SettledArray(v, was, now, rules);
      UntouchedArray(NormalItems(v, |v.items|, was, rules), now, rules);
    }
  }

  lemma {:induction false} SettledItemIff(v: Json, i: nat, was: string, now: string, rules: IgnoreRules)
    requires v.Arr? && i < |v.items|
    ensures SettledItem(v, i, was, now, rules) <==> UntouchedItem(v, i, was, now, rules)
    decreases v, 0, 0
  {
    if was + "/" + Decimal(i) !in rules.pointers {
      SettledIff(v.items[i], was + "/" + Decimal(i), now + "/" + Decimal(KeptItems(i, was, rules)), rules);
    }
  }

  lemma {:induction false} SettledItemsIff(v: Json, n: nat, was: string, now: string, rules: IgnoreRules)
    requires v.Arr? && n <= |v.items|
    ensures |NormalItems(v, n, was, rules)| == KeptItems(n, was, rules)
    ensures SettledItems(v, n, was, now, rules) <==> UntouchedItems(NormalItems(v, n, was, rules), now, rules)
    decreases v, 0, n + 1
  {
    if n > 0 {
      SettledItemsIff(v, n - 1, was, now, rules);
      SettledItemIff(v, n - 1, was, now, rules);
      UntouchedItemsNext(v, n - 1, was, now, rules);
    }
  }

  /** Names to ignore leave no trace; and normalizing again changes nothing exactly when every kept value, at the
   *  place it has moved to, is still one to keep. */
  lemma {:induction false} NormalizeIdempotentIff(v: Json, rules: IgnoreRules)
    ensures NoVolatile(Normalize(v, rules), rules)
    ensures Normalize(Normalize(v, rules), rules) == Normalize(v, rules)
      <==> "" in rules.pointers || Settled(v, "", "", rules)
  {
    if "" !in rules.pointers {
      NormalClean(v, "", rules);
      SettledIff(v, "", "", rules);
      NormalKeeps(Normalize(v, rules), "", rules);
    }
  }

  /** An ignored array item gives its place to the next one, which a second normalization then drops. */
  lemma {:induction false} IgnoredItemShifts()
    ensures var rules, v := IgnoreRules(["/0"], []), Arr([Bool(true), Bool(false)]);
      Normalize(v, rules) == Arr([Bool(false)]) && Normalize(Normalize(v, rules), rules) == Arr([])
  {
    var rules, v, w := IgnoreRules(["/0"], []), Arr([Bool(true), Bool(false)]), Arr([Bool(false)]);
    var zero, one := "" + "/" + Decimal(0), "" + "/" + Decimal(1);
    assert Decimal(0) == "0" && Decimal(1) == "1";
    assert zero == "/0";
    assert one == "/1";
    assert NormalItems(v, 0, "", rules) == [];
    assert NormalItems(v, 1, "", rules) == [];
    assert NormalItems(v, 2, "", rules) == [Bool(false)];
    assert NormalItems(w, 0, "", rules) == [];
    assert NormalItems(w, 1, "", rules) == [];
  }

  /** An opaque retry token stays present, but its text does not count. */
  function WithoutTokenText(w: Json): Json {
    if w.Obj? && "requestState" in w.fields && w.fields["requestState"].Str?
    then Obj(w.fields["requestState" := Str("<opaque MCP request state>")]) else w
  }

  function NormalizeRequest(v: Json, rules: IgnoreRules): Json { WithoutTokenText(Normalize(v, rules)) }

  function NormalizeResponse(v: Json, rules: IgnoreRules): Json {
    var w := Normalize(v, rules);
    if GetStr(w, "resultType") == Some("input_required") then Obj(w.fields - {"requestState"}) else w
  }

  lemma {:induction false} NormalField(fields: map<string, Json>, rules: IgnoreRules, k: string)
    requires "" !in rules.pointers
    ensures Normalize(Obj(fields), rules).Obj?
    ensures Normalize(Obj(fields), rules).Get(k) ==
      if k in fields && !Volatile(k, rules) then Normal(fields[k], ChildPointer("", k), rules) else None
  {
  }

  predicate IsText(v: Option<Json>) { v.Some? ==> v.value.Str? }

  lemma {:induction false} SameButToken(x: Json, y: Json)
    requires x.Obj? && y.Obj? && IsText(x.Get("requestState")) && IsText(y.Get("requestState"))
    requires forall k :: x.Get(k).Some? <==> y.Get(k).Some?
    requires forall k :: k != "requestState" ==> x.Get(k) == y.Get(k)
    ensures WithoutTokenText(x) == WithoutTokenText(y)
  {
    var u, w := WithoutTokenText(x), WithoutTokenText(y);
    forall k ensures u.Get(k) == w.Get(k) { assert x.Get(k).Some? <==> y.Get(k).Some?; }
    assert u.fields == w.fields by {
      assert forall k :: k in u.fields <==> u.Get(k).Some?;
      assert forall k :: k in w.fields <==> w.Get(k).Some?;
    }
  }

  lemma {:induction false} TokenField(fields: map<string, Json>, s: string, t: string, rules: IgnoreRules, k: string)
    requires "" !in rules.pointers
    ensures var x := Normalize(Obj(fields["requestState" := Str(s)]), rules);
      var y := Normalize(Obj(fields["requestState" := Str(t)]), rules);
      && x.Obj? && y.Obj? && (x.Get(k).Some? <==> y.Get(k).Some?)
      && (if k == "requestState" then IsText(x.Get(k)) && IsText(y.Get(k)) else x.Get(k) == y.Get(k))
  {
    NormalField(fields["requestState" := Str(s)], rules, k);
    NormalField(fields["requestState" := Str(t)], rules, k);
  }

  /** Runs that differ only in the retry token's text send the same request. */
  lemma {:induction false} TokenTextIgnored(fields: map<string, Json>, s: string, t: string, rules: IgnoreRules)
    ensures NormalizeRequest(Obj(fields["requestState" := Str(s)]), rules)
      == NormalizeRequest(Obj(fields["requestState" := Str(t)]), rules)
  {
    if "" !in rules.pointers {
      var x := Normalize(Obj(fields["requestState" := Str(s)]), rules);
      var y := Normalize(Obj(fields["requestState" := Str(t)]), rules);
      forall k
        ensures x.Obj? && y.Obj? && (x.Get(k).Some? <==> y.Get(k).Some?)
          && (k != "requestState" ==> x.Get(k) == y.Get(k))
        ensures k == "requestState" ==> IsText(x.Get(k)) && IsText(y.Get(k))
      {
        TokenField(fields, s, t, rules, k);
      }
      SameButToken(x, y);
    }
  }

  // ---------------------------------------------------------------- deltas of one aligned exchange

  datatype DiffOptions = DiffOptions(ignore: IgnoreRules, ignoreLatency: bool, thresholdPct: real, thresholdNanos: int)

  datatype Delta =
    | StatusChanged(from: Status, to: Status)
    | ErrorCodeChanged(fromCode: Option<int>, toCode: Option<int>)
    | RequestChanged(requestDiffs: seq<PointerDiff>)
    | ResponseChanged(responseDiffs: seq<PointerDiff>)
    | LatencyChanged(fromNanos: int, toNanos: int)

  type Payloads = map<nat, Json>

  function PayloadAt(num: Option<nat>, payloads: Payloads): Option<Json> {
    if num.Some? && num.value in payloads then Some(payloads[num.value]) else None
  }

  function RequestParams(e: Exchange, payloads: Payloads): Option<Json> {
    match PayloadAt(e.requestSeq, payloads) case None => None case Some(payload) => Some(Params(payload))
  }

  function BodyField(status: Status): Option<string> {
    match status
    case Answered | ToolFailed => Some("result")
    case Failed => Some("error")
    case _ => None
  }

  function Body(e: Exchange, payloads: Payloads, field: string): Option<Json> {
    match PayloadAt(e.responseSeq, payloads) case Some(payload) => payload.Get(field) case None => None
  }

  function RequestDiffs(a: Exchange, b: Exchange, pa: Payloads, pb: Payloads, opts: DiffOptions): seq<PointerDiff> {
    match (RequestParams(a, pa), RequestParams(b, pb))
    case (Some(x), Some(y)) => RenderAll(Diffs(NormalizeRequest(x, opts.ignore), NormalizeRequest(y, opts.ignore), []))
    case _ => []
  }

  /** Bodies are compared in the field the first run's outcome names. */
  function ResponseDiffs(a: Exchange, b: Exchange, pa: Payloads, pb: Payloads, opts: DiffOptions): seq<PointerDiff> {
    match BodyField(a.status)
    case None => []
    case Some(field) =>
      match (Body(a, pa, field), Body(b, pb, field))
      case (Some(x), Some(y)) =>
        RenderAll(Diffs(NormalizeResponse(x, opts.ignore), NormalizeResponse(y, opts.ignore), []))
      case _ => []
  }

  function Abs(x: int): int { if x < 0 then -x else x }

  predicate LatencyDiffers(a: Exchange, b: Exchange, opts: DiffOptions) {
    && !opts.ignoreLatency && a.latency.Some? && b.latency.Some?
    && a.latency.value > 0 && Abs(b.latency.value - a.latency.value) > opts.thresholdNanos
    && Abs(b.latency.value - a.latency.value) as real / a.latency.value as real * 100.0 > opts.thresholdPct
  }

  function RequestDeltas(request: seq<PointerDiff>): seq<Delta> {
    if request != [] then [RequestChanged(request)] else []
  }

  /** Bodies and error codes count only when both runs reached the same status. */
  function OutcomeDeltas(a: Exchange, b: Exchange, response: seq<PointerDiff>): seq<Delta> {
    if a.status != b.status then [StatusChanged(a.status, b.status)] else
    (if a.errorCode != b.errorCode then [ErrorCodeChanged(a.errorCode, b.errorCode)] else [])
    + (if response != [] then [ResponseChanged(response)] else [])
  }

  function LatencyDeltas(a: Exchange, b: Exchange, opts: DiffOptions): seq<Delta> {
    if LatencyDiffers(a, b, opts) then [LatencyChanged(a.latency.value, b.latency.value)] else []
  }

  function Deltas(a: Exchange, b: Exchange, pa: Payloads, pb: Payloads, opts: DiffOptions): seq<Delta> {
    RequestDeltas(RequestDiffs(a, b, pa, pb, opts)) + OutcomeDeltas(a, b, ResponseDiffs(a, b, pa, pb, opts))
      + LatencyDeltas(a, b, opts)
  }

  predicate OnlyLatency(deltas: seq<Delta>) { forall d :: d in deltas ==> d.LatencyChanged? }

  method CompareTrees(x: Json, y: Json) returns (diffs: seq<PointerDiff>)
    ensures diffs == RenderAll(Diffs(x, y, []))
  {
    diffs := CompareValues(x, y, "", [], []);
  }

  method CompareRequests(a: Exchange, b: Exchange, pa: Payloads, pb: Payloads, opts: DiffOptions)
    returns (diffs: seq<PointerDiff>)
    ensures diffs == RequestDiffs(a, b, pa, pb, opts)
  {
    diffs := [];
    var x, y := RequestParams(a, pa), RequestParams(b, pb);
    if x.Some? && y.Some? {
      diffs := CompareTrees(NormalizeRequest(x.value, opts.ignore), NormalizeRequest(y.value, opts.ignore));
    }
  }

  method CompareResponses(a: Exchange, b: Exchange, pa: Payloads, pb: Payloads, opts: DiffOptions)
    returns (diffs: seq<PointerDiff>)
    ensures diffs == ResponseDiffs(a, b, pa, pb, opts)
  {
    diffs := [];
    var field := BodyField(a.status);
    if field.Some? {
      var x, y := Body(a, pa, field.value), Body(b, pb, field.value);
      if x.Some? && y.Some? { diffs := CompareTrees(NormalizeResponse(x.value, opts.ignore),
          NormalizeResponse(y.value, opts.ignore)); }
    }
  }

  method CompareOutcomes(a: Exchange, b: Exchange, pa: Payloads, pb: Payloads, opts: DiffOptions)
    returns (deltas: seq<Delta>)
    ensures deltas == OutcomeDeltas(a, b, ResponseDiffs(a, b, pa, pb, opts))
  {
    if a.status != b.status {
      deltas := [StatusChanged(a.status, b.status)];
    } else {
      var response := CompareResponses(a, b, pa, pb, opts);
      deltas := PushOutcome(a, b, response);
    }
  }

  method PushOutcome(a: Exchange, b: Exchange, response: seq<PointerDiff>) returns (deltas: seq<Delta>)
    requires a.status == b.status
    ensures deltas == OutcomeDeltas(a, b, response)
  {
    deltas := [];
    if a.errorCode != b.errorCode { deltas := deltas + [ErrorCodeChanged(a.errorCode, b.errorCode)]; }
    if response != [] { deltas := deltas + [ResponseChanged(response)]; }
  }

  method CompareExchanges(a: Exchange, b: Exchange, pa: Payloads, pb: Payloads, opts: DiffOptions)
    returns (deltas: seq<Delta>)
    ensures deltas == Deltas(a, b, pa, pb, opts)
  {
    var request := CompareRequests(a, b, pa, pb, opts);
    var outcome := CompareOutcomes(a, b, pa, pb, opts);
    deltas := RequestDeltas(request) + outcome + LatencyDeltas(a, b, opts);
  }

  // ---------------------------------------------------------------- the point of divergence

  datatype Kind =
    | MethodMismatch | StatusMismatch | ErrorCodeMismatch | RequestMismatch | ResponseMismatch
    | MissingExchange | ExtraExchange

  datatype Point = Point(step: nat, key: string, kind: Kind)

  /** Two runs side by side. */
  datatype Runs = Runs(a: seq<Aligned>, b: seq<Aligned>, pa: Payloads, pb: Payloads, opts: DiffOptions)

  /** How step `i`, present in both runs, differs, the first difference counting. */
  function StepKind(r: Runs, i: nat): Option<Kind>
    requires i < |r.a| && i < |r.b|
  {
    var x, y := r.a[i].exchange, r.b[i].exchange;
    if r.a[i].key != r.b[i].key then Some(MethodMismatch)
    else if x.status != y.status then Some(StatusMismatch)
    else if x.errorCode != y.errorCode then Some(ErrorCodeMismatch)
    else if RequestDiffs(x, y, r.pa, r.pb, r.opts) != [] then Some(RequestMismatch)
    else if ResponseDiffs(x, y, r.pa, r.pb, r.opts) != [] then Some(ResponseMismatch)
    else None
  }

  predicate StepAgrees(r: Runs, i: nat)
    requires i < |r.a| && i < |r.b|
  {
    StepKind(r, i).None?
  }

  /** The point is where the runs part: every earlier step agrees, and this one differs or is there in one run only. */
  predicate PartAt(r: Runs, p: Point) {
    && p.step <= |r.a| && p.step <= |r.b| && (forall i :: 0 <= i < p.step ==> StepAgrees(r, i))
    && (if p.step < |r.a| && p.step < |r.b| then StepKind(r, p.step) == Some(p.kind) && p.key == r.a[p.step].key
        else if p.step < |r.a| then p.kind == MissingExchange && p.key == r.a[p.step].key
        else p.step < |r.b| && p.kind == ExtraExchange && p.key == r.b[p.step].key)
  }

  method ComputePointOfDivergence(r: Runs) returns (p: Option<Point>)
    ensures p.Some? ==> PartAt(r, p.value)
    ensures p.None? ==> |r.a| == |r.b| && forall i :: 0 <= i < |r.a| ==> StepAgrees(r, i)
  {
    var shorter := if |r.a| < |r.b| then |r.a| else |r.b|;
    for i := 0 to shorter
      invariant forall j :: 0 <= j < i ==> StepAgrees(r, j)
    {
      var x, y := r.a[i].exchange, r.b[i].exchange;
      if r.a[i].key != r.b[i].key { return Some(Point(i, r.a[i].key, MethodMismatch)); }
      if x.status != y.status { return Some(Point(i, r.a[i].key, StatusMismatch)); }
      if x.errorCode != y.errorCode { return Some(Point(i, r.a[i].key, ErrorCodeMismatch)); }
      var request := CompareRequests(x, y, r.pa, r.pb, r.opts);
      if request != [] { return Some(Point(i, r.a[i].key, RequestMismatch)); }
      var response := CompareResponses(x, y, r.pa, r.pb, r.opts);
      if response != [] { return Some(Point(i, r.a[i].key, ResponseMismatch)); }
    }
    if |r.a| > |r.b| { return Some(Point(shorter, r.a[shorter].key, MissingExchange)); }
    if |r.b| > |r.a| { return Some(Point(shorter, r.b[shorter].key, ExtraExchange)); }
    return None;
  }

  /** There is at most one point where two runs part. */
  lemma {:induction false} PartOnce(r: Runs, p: Point, q: Point)
    requires PartAt(r, p) && PartAt(r, q)
    ensures p == q
  {
    PartDisagrees(r, p);
    PartDisagrees(r, q);
  }

  lemma {:induction false} PartDisagrees(r: Runs, p: Point)
    requires PartAt(r, p)
    ensures p.step < |r.a| || p.step < |r.b|
    ensures p.step < |r.a| && p.step < |r.b| ==> !StepAgrees(r, p.step)
  {
  }

  /** A step agrees exactly when its keys are equal and its exchanges differ in nothing but latency. */
  lemma {:induction false} StepAgreesIff(r: Runs, i: nat)
    requires i < |r.a| && i < |r.b|
    ensures StepAgrees(r, i) <==>
      r.a[i].key == r.b[i].key && OnlyLatency(Deltas(r.a[i].exchange, r.b[i].exchange, r.pa, r.pb, r.opts))
  {
    var x, y := r.a[i].exchange, r.b[i].exchange;
    OnlyLatencyIff(x, y, RequestDiffs(x, y, r.pa, r.pb, r.opts), ResponseDiffs(x, y, r.pa, r.pb, r.opts),
        LatencyDeltas(x, y, r.opts));
  }

  lemma {:induction false} OnlyLatencyIff(a: Exchange, b: Exchange, request: seq<PointerDiff>,
                                          response: seq<PointerDiff>, latency: seq<Delta>)
    requires OnlyLatency(latency)
    ensures OnlyLatency(RequestDeltas(request) + OutcomeDeltas(a, b, response) + latency) <==>
      request == [] && a.status == b.status && a.errorCode == b.errorCode && response == []
  {
    var outcome := OutcomeDeltas(a, b, response);
    if request != [] { assert RequestDeltas(request)[0] in RequestDeltas(request); }
    if outcome != [] { assert outcome[0] in outcome && !outcome[0].LatencyChanged?; }
    assert forall d :: d in RequestDeltas(request) + outcome + latency <==>
        d in RequestDeltas(request) || d in outcome || d in latency;
  }

  // ---------------------------------------------------------------- against the aligned report

  datatype Change = Change(key: string, deltas: seq<Delta>)

  /** The last exchange under a key, as the index map holds it. */
  function Lookup(keys: seq<Aligned>, key: string): Option<Exchange> {
    if |keys| == 0 then None else
    var last := keys[|keys| - 1];
    if last.key == key then Some(last.exchange) else Lookup(keys[..|keys| - 1], key)
  }

  /** What the report says of the first run's step `i`, if the second run has its key. */
  function ChangeAt(r: Runs, i: nat): seq<Change>
    requires i < |r.a|
  {
    match Lookup(r.b, r.a[i].key)
    case None => []
    case Some(other) => ChangeOf(r.a[i].key, Deltas(r.a[i].exchange, other, r.pa, r.pb, r.opts))
  }

  function ChangeOf(key: string, deltas: seq<Delta>): seq<Change> { if deltas != [] then [Change(key, deltas)] else [] }

  function Changes(r: Runs, n: nat): seq<Change>
    requires n <= |r.a|
  {
    if n == 0 then [] else Changes(r, n - 1) + ChangeAt(r, n - 1)
  }

  /** The keys of the first list that the second does not have. */
  function Missing(keys: seq<Aligned>, others: seq<Aligned>, n: nat): seq<string>
    requires n <= |keys|
  {
    if n == 0 then [] else
    Missing(keys, others, n - 1) + if Lookup(others, keys[n - 1].key).None? then [keys[n - 1].key] else []
  }

  method Index(keys: seq<Aligned>) returns (index: map<string, Exchange>)
    ensures forall key :: Lookup(keys, key) == if key in index then Some(index[key]) else None
  {
    index := map[];
    for i := 0 to |keys|
      invariant forall key :: Lookup(keys[..i], key) == if key in index then Some(index[key]) else None
    {
      assert keys[..i + 1][..i] == keys[..i];
      index := index[keys[i].key := keys[i].exchange];
    }
    assert keys[..|keys|] == keys;
  }

  method CompareStep(r: Runs, i: nat, other: Option<Exchange>) returns (change: seq<Change>)
    requires i < |r.a| && other == Lookup(r.b, r.a[i].key)
    ensures change == ChangeAt(r, i)
  {
    change := [];
    if other.Some? {
      var deltas := CompareExchanges(r.a[i].exchange, other.value, r.pa, r.pb, r.opts);
      change := ChangeOf(r.a[i].key, deltas);
    }
  }

  method CollectChanges(r: Runs, index: map<string, Exchange>) returns (changed: seq<Change>, removed: seq<string>)
    requires forall key :: Lookup(r.b, key) == if key in index then Some(index[key]) else None
    ensures changed == Changes(r, |r.a|) && removed == Missing(r.a, r.b, |r.a|)
  {
    changed, removed := [], [];
    for i := 0 to |r.a|
      invariant changed == Changes(r, i) && removed == Missing(r.a, r.b, i)
    {
      var key := r.a[i].key;
      var other := if key in index then Some(index[key]) else None;
      assert other == Lookup(r.b, key);
      if other.None? { removed := removed + [key]; }
      var change := CompareStep(r, i, other);
      changed := changed + change;
    }
  }

  method CollectMissing(keys: seq<Aligned>, others: seq<Aligned>, index: map<string, Exchange>)
    returns (missing: seq<string>)
    requires forall key :: Lookup(others, key) == if key in index then Some(index[key]) else None
    ensures missing == Missing(keys, others, |keys|)
  {
    missing := [];
    for i := 0 to |keys|
      invariant missing == Missing(keys, others, i)
    {
      if keys[i].key !in index { missing := missing + [keys[i].key]; }
    }
  }

  method DiffAligned(r: Runs)
    returns (changed: seq<Change>, added: seq<string>, removed: seq<string>, point: Option<Point>)
    ensures changed == Changes(r, |r.a|) && removed == Missing(r.a, r.b, |r.a|) && added == Missing(r.b, r.a, |r.b|)
    ensures point.Some? ==> PartAt(r, point.value)
    ensures point.None? ==> |r.a| == |r.b| && forall i :: 0 <= i < |r.a| ==> StepAgrees(r, i)
  {
    var indexA := Index(r.a);
    var indexB := Index(r.b);
    changed, removed := CollectChanges(r, indexB);
    added := CollectMissing(r.b, r.a, indexA);
    point := ComputePointOfDivergence(r);
  }

  lemma {:induction false} LookupAt(keys: seq<Aligned>, x: nat)
    requires DistinctKeys(keys) && x < |keys|
    ensures Lookup(keys, keys[x].key) == Some(keys[x].exchange)
  {
    if x < |keys| - 1 { LookupAt(keys[..|keys| - 1], x); }
  }

  predicate SameKeys(r: Runs) { |r.a| == |r.b| && forall i :: 0 <= i < |r.a| ==> r.a[i].key == r.b[i].key }

  predicate AllOnlyLatency(changes: seq<Change>) { forall c :: c in changes ==> OnlyLatency(c.deltas) }

  lemma {:induction false} AllOnlyLatencyBoth(x: seq<Change>, y: seq<Change>)
    ensures AllOnlyLatency(x + y) <==> AllOnlyLatency(x) && AllOnlyLatency(y)
  {
    assert forall c :: c in x + y <==> c in x || c in y;
  }

  lemma {:induction false} ChangeOfOnlyLatency(key: string, deltas: seq<Delta>)
    ensures AllOnlyLatency(ChangeOf(key, deltas)) <==> OnlyLatency(deltas)
  {
    if deltas != [] { assert Change(key, deltas) in ChangeOf(key, deltas); }
  }

  lemma {:induction false} ChangeAtOnlyLatency(r: Runs, i: nat)
    requires SameKeys(r) && DistinctKeys(r.b) && i < |r.a|
    ensures AllOnlyLatency(ChangeAt(r, i)) <==> StepAgrees(r, i)
  {
    StepAgreesIff(r, i);
    LookupAt(r.b, i);
    ChangeOfOnlyLatency(r.a[i].key, Deltas(r.a[i].exchange, r.b[i].exchange, r.pa, r.pb, r.opts));
  }

  function Gathered(parts: seq<seq<Change>>): seq<Change> {
    if |parts| == 0 then [] else Gathered(parts[..|parts| - 1]) + parts[|parts| - 1]
  }

  lemma {:induction false} GatheredOnlyLatency(parts: seq<seq<Change>>)
    ensures AllOnlyLatency(Gathered(parts)) <==> forall i :: 0 <= i < |parts| ==> AllOnlyLatency(parts[i])
  {
    if AllOnlyLatency(Gathered(parts)) {
      forall i | 0 <= i < |parts| ensures AllOnlyLatency(parts[i]) {
        forall c | c in parts[i] ensures OnlyLatency(c.deltas) { InGathered(parts, c); }
      }
    }
    if forall i :: 0 <= i < |parts| ==> AllOnlyLatency(parts[i]) {
      forall c | c in Gathered(parts) ensures OnlyLatency(c.deltas) { InGathered(parts, c); }
    }
  }

  lemma {:induction false} InGathered(parts: seq<seq<Change>>, c: Change)
    ensures c in Gathered(parts) <==> exists i :: 0 <= i < |parts| && c in parts[i]
  {
    if |parts| > 0 {
      var init := parts[..|parts| - 1];
      InGathered(init, c);
      assert forall i :: 0 <= i < |init| ==> init[i] == parts[i];
    }
  }

  lemma {:induction false} ChangesGathered(r: Runs, n: nat, parts: seq<seq<Change>>)
    requires n <= |r.a| && |parts| == n && forall i :: 0 <= i < n ==> parts[i] == ChangeAt(r, i)
    ensures Changes(r, n) == Gathered(parts)
  {
    if n > 0 { ChangesGathered(r, n - 1, parts[..n - 1]); }
  }

  lemma {:induction false} ChangesOnlyLatency(r: Runs)
    requires SameKeys(r) && DistinctKeys(r.b)
    ensures AllOnlyLatency(Changes(r, |r.a|)) <==> forall i :: 0 <= i < |r.a| ==> StepAgrees(r, i)
  {
    var parts := seq(|r.a|, i requires 0 <= i < |r.a| => ChangeAt(r, i));
    ChangesGathered(r, |r.a|, parts);
    GatheredOnlyLatency(parts);
    forall i | 0 <= i < |r.a| ensures AllOnlyLatency(parts[i]) <==> StepAgrees(r, i) { ChangeAtOnlyLatency(r, i); }
  }

  lemma {:induction false} AgreeingRuns(r: Runs)
    requires DistinctKeys(r.b) && |r.a| == |r.b| && forall i :: 0 <= i < |r.a| ==> StepAgrees(r, i)
    ensures SameKeys(r) && AllOnlyLatency(Changes(r, |r.a|))
  {
    forall i | 0 <= i < |r.a| ensures r.a[i].key == r.b[i].key { assert StepAgrees(r, i); }
    ChangesOnlyLatency(r);
  }

  /** There is no point of divergence exactly when the key sequences are equal and the report holds no change but
   *  latency. */
  lemma {:induction false} NoPointIff(r: Runs)
    requires DistinctKeys(r.b)
    ensures (forall p :: !PartAt(r, p)) <==> SameKeys(r) && AllOnlyLatency(Changes(r, |r.a|))
  {
    if SameKeys(r) { ChangesOnlyLatency(r); }
    var p := SomePoint(r);
    if p.None? {
      assert |r.a| == |r.b|;
      forall i | 0 <= i < |r.a| ensures r.a[i].key == r.b[i].key { assert StepAgrees(r, i); }
      forall q ensures !PartAt(r, q) {
        if q.step < |r.a| && q.step < |r.b| { assert StepAgrees(r, q.step); }
      }
    } else {
      assert PartAt(r, p.value);
      assert p.value.step < |r.a| && p.value.step < |r.b| ==> !StepAgrees(r, p.value.step);
    }
  }

  /** Either the runs part somewhere, or every step agrees and neither run is longer. */
  lemma {:induction false} SomePoint(r: Runs) returns (p: Option<Point>)
    ensures p.Some? ==> PartAt(r, p.value)
    ensures p.None? ==> |r.a| == |r.b| && forall i :: 0 <= i < |r.a| ==> StepAgrees(r, i)
  {
    var i := 0;
    while i < |r.a| && i < |r.b| && StepAgrees(r, i)
      invariant i <= |r.a| && i <= |r.b| && forall j :: 0 <= j < i ==> StepAgrees(r, j)
    {
      i := i + 1;
    }
    p := if i < |r.a| && i < |r.b| then Some(Point(i, r.a[i].key, StepKind(r, i).value))
         else if i < |r.a| then Some(Point(i, r.a[i].key, MissingExchange))
         else if i < |r.b| then Some(Point(i, r.b[i].key, ExtraExchange))
         else None;
  }

  // ---------------------------------------------------------------- two sessions

  function PayloadsBySeq(messages: seq<StoredMessage>): Payloads {
    if |messages| == 0 then map[] else
    var last := messages[|messages| - 1];
    var before := PayloadsBySeq(messages[..|messages| - 1]);
    if last.payload.Some? then before[last.num := last.payload.value] else before
  }

  function RunsOf(a: seq<StoredMessage>, b: seq<StoredMessage>, opts: DiffOptions): Runs {
    var x, y := Session.Correlated(a).0, Session.Correlated(b).0;
    Runs(Alignment(x, |x|), Alignment(y, |y|), PayloadsBySeq(a), PayloadsBySeq(b), opts)
  }

  /** Of any two sessions: no point of divergence exactly when the alignment keys are the same in order and nothing
   *  aligned differs but in latency. */
  lemma {:induction false} SessionsAgreeIff(a: seq<StoredMessage>, b: seq<StoredMessage>, opts: DiffOptions)
    ensures var r := RunsOf(a, b, opts);
      (forall p :: !PartAt(r, p)) <==> SameKeys(r) && AllOnlyLatency(Changes(r, |r.a|))
  {
    var y := Session.Correlated(b).0;
    AlignmentDistinct(y, |y|);
    NoPointIff(RunsOf(a, b, opts));
  }

  /** `diff_sessions` without its tool and notification sections. */
  method DiffSessions(a: seq<StoredMessage>, b: seq<StoredMessage>, opts: DiffOptions)
    returns (changed: seq<Change>, added: seq<string>, removed: seq<string>, point: Option<Point>)
    ensures var r := RunsOf(a, b, opts);
      && changed == Changes(r, |r.a|) && removed == Missing(r.a, r.b, |r.a|) && added == Missing(r.b, r.a, |r.b|)
      && (point.Some? ==> PartAt(r, point.value))
      && (point.None? <==> SameKeys(r) && AllOnlyLatency(changed))
  {
    var x := Session.Correlate(a);
    var y := Session.Correlate(b);
    var keysA := AlignmentKeys(x.exchanges);
    var keysB := AlignmentKeys(y.exchanges);
    var r := Runs(keysA, keysB, PayloadsBySeq(a), PayloadsBySeq(b), opts);
    changed, added, removed, point := DiffAligned(r);
    SessionsAgreeIff(a, b, opts);
    AlignmentDistinct(y.exchanges, |y.exchanges|);
    if point.None? { AgreeingRuns(r); }
  }
}
