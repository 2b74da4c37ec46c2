/** Leaving repeated calls out of a merge. */
module Dedup {
  import opened Json
  import opened Policy
  import opened Protocol
  import opened Pairing
  import opened Removal
  import Session

  /** What makes two calls the same: method, tool, and the canonical text of the parameters. */
  datatype CallKey = CallKey(method_: string, tool: Option<string>, params: string)

  predicate HasPlaceholder(v: Json) {
    match v
    case Str(s) => s == PLACEHOLDER
    case Arr(items) => exists i :: 0 <= i < |items| && HasPlaceholder(items[i])
    case Obj(fields) => exists k :: k in fields && HasPlaceholder(fields[k])
    case _ => false
  }

  /** None when the message has no method, is no object, or masked parameters make equality meaningless. */
  function CallKeyOf(m: StoredMessage): Option<CallKey> {
    if m.fields.method_.None? || m.payload.None? || !m.payload.value.Obj? || HasPlaceholder(Params(m.payload.value))
    then None
    else Some(CallKey(m.fields.method_.value, m.fields.tool, Text(Params(m.payload.value))))
  }

  /** Calls are the same exactly when method, tool and parameters are. */
  lemma {:induction false} SameCallIff(a: StoredMessage, b: StoredMessage)
    requires CallKeyOf(a).Some? && CallKeyOf(b).Some?
    ensures CallKeyOf(a) == CallKeyOf(b) <==>
      a.fields.method_ == b.fields.method_ && a.fields.tool == b.fields.tool
        && Params(a.payload.value) == Params(b.payload.value)
  {
    if CallKeyOf(a) == CallKeyOf(b) { TextInjective(Params(a.payload.value), Params(b.payload.value)); }
  }

  // ---------------------------------------------------------------- the scan

  /** What one message is to the scan. */
  datatype Mark = Call(key: Option<CallKey>, id: Option<string>) | Answer(id: Option<string>) | Other

  function MarkOf(m: StoredMessage): Mark {
    if m.direction == "c2s" && m.fields.kind == "request" then Call(CallKeyOf(m), m.fields.rpcId)
    else if m.direction == "s2c" && m.fields.kind == "response" then Answer(m.fields.rpcId)
    else Other
  }

  function Marks(messages: seq<StoredMessage>): seq<Mark> {
    seq(|messages|, i requires 0 <= i < |messages| => MarkOf(messages[i]))
  }

  /** Calls seen, whether the request in flight for an id goes, which messages go, and how many of them are calls. */
  datatype Scan = Scan(seen: set<CallKey>, pending: map<string, bool>, gone: seq<bool>, calls: nat)

  function Goes(s: Scan, mark: Mark): bool {
    match mark
    case Call(key, _) => key.Some? && key.value in s.seen
    case Answer(id) => id.Some? && id.value in s.pending && s.pending[id.value]
    case Other => false
  }

  function ScanStep(s: Scan, mark: Mark): Scan {
    var goes := Goes(s, mark);
    match mark
    case Call(key, id) =>
      Scan(if key.Some? then s.seen + {key.value} else s.seen,
           if id.Some? then s.pending[id.value := goes] else s.pending,
           s.gone + [goes], s.calls + if goes then 1 else 0)
    case Answer(id) =>
      s.(pending := if id.Some? then s.pending - {id.value} else s.pending, gone := s.gone + [goes])
    case Other => s.(gone := s.gone + [goes])
  }

  function ScanRun(marks: seq<Mark>, seen: set<CallKey>, n: nat): (s: Scan)
    requires n <= |marks|
    ensures |s.gone| == n
  {
    if n == 0 then Scan(seen, map[], [], 0) else ScanStep(ScanRun(marks, seen, n - 1), marks[n - 1])
  }

  function Gone(messages: seq<StoredMessage>, seen: set<CallKey>): seq<bool> {
    ScanRun(Marks(messages), seen, |messages|).gone
  }

  function RemovedNums(messages: seq<StoredMessage>, gone: seq<bool>): set<nat>
    requires |gone| <= |messages|
  {
    set i | 0 <= i < |gone| && gone[i] :: messages[i].num
  }

  function Filter(messages: seq<StoredMessage>, nums: set<nat>, n: nat): seq<StoredMessage>
    requires n <= |messages|
  {
    if n == 0 then [] else Filter(messages, nums, n - 1) + if messages[n - 1].num in nums then [] else [messages[n - 1]]
  }

  lemma {:induction false} RemovedNext(messages: seq<StoredMessage>, gone: seq<bool>, goes: bool)
    requires |gone| < |messages|
    ensures RemovedNums(messages, gone + [goes]) ==
      RemovedNums(messages, gone) + if goes then {messages[|gone|].num} else {}
  {
    var more := gone + [goes];
    assert more[|gone|] == goes && forall i :: 0 <= i < |gone| ==> more[i] == gone[i];
  }

  method DeduplicateSourceMessages(messages: seq<StoredMessage>, before: set<CallKey>)
    returns (kept: seq<StoredMessage>, removedCalls: nat, seen: set<CallKey>)
    ensures var s := ScanRun(Marks(messages), before, |messages|);
      && kept == Filter(messages, RemovedNums(messages, s.gone), |messages|)
      && removedCalls == s.calls && seen == s.seen
  {
    var removed: set<nat>, pending: map<string, bool> := {}, map[];
    removedCalls, seen := 0, before;
    ghost var marks, s := Marks(messages), Scan(before, map[], [], 0);
    for i := 0 to |messages|
      invariant |s.gone| == i && s == ScanRun(marks, before, i) && s == Scan(seen, pending, s.gone, removedCalls)
      invariant removed == RemovedNums(messages, s.gone)
    {
      var goes;
      goes, seen, pending, removedCalls := ScanMessage(MarkOf(messages[i]), seen, pending, removedCalls, s);
      s := ScanStep(s, marks[i]);
      RemovedNext(messages, s.gone[..i], goes);
      assert s.gone == s.gone[..i] + [goes];
      if goes { removed := removed + {messages[i].num}; }
    }
    kept := [];
    for i := 0 to |messages|
      invariant kept == Filter(messages, removed, i)
    {
      if messages[i].num !in removed { kept := kept + [messages[i]]; }
    }
  }

  method ScanMessage(mark: Mark, seenBefore: set<CallKey>, pendingBefore: map<string, bool>, callsBefore: nat,
                     ghost s: Scan)
    returns (goes: bool, seen: set<CallKey>, pending: map<string, bool>, calls: nat)
    requires s == Scan(seenBefore, pendingBefore, s.gone, callsBefore)
    ensures goes == Goes(s, mark) && ScanStep(s, mark) == Scan(seen, pending, s.gone + [goes], calls)
  {
    goes, seen, pending, calls := false, seenBefore, pendingBefore, callsBefore;
    match mark {
      case Call(key, id) =>
        if key.Some? {
          goes := key.value in seen;
          seen := seen + {key.value};
        }
        if goes { calls := calls + 1; }
        if id.Some? { pending := pending[id.value := goes]; }
      case Answer(id) =>
        if id.Some? && id.value in pending {
          goes := pending[id.value];
          pending := pending - {id.value};
        }
      case Other =>
    }
  }

  // ---------------------------------------------------------------- what goes

  lemma {:induction false} ScanGone(marks: seq<Mark>, seen: set<CallKey>, n: nat, i: nat)
    requires i < n <= |marks|
    ensures ScanRun(marks, seen, n).gone[i] == Goes(ScanRun(marks, seen, i), marks[i])
  {
    if i < n - 1 { ScanGone(marks, seen, n - 1, i); }
  }

  predicate CalledBefore(marks: seq<Mark>, key: CallKey, n: nat)
    requires n <= |marks|
  {
    exists i :: 0 <= i < n && marks[i].Call? && marks[i].key == Some(key)
  }

  lemma {:induction false} ScanSeen(marks: seq<Mark>, seen: set<CallKey>, n: nat, key: CallKey)
    requires n <= |marks|
    ensures key in ScanRun(marks, seen, n).seen <==> key in seen || CalledBefore(marks, key, n)
  {
    if n > 0 {
      ScanSeen(marks, seen, n - 1, key);
      if marks[n - 1].Call? && marks[n - 1].key == Some(key) { assert CalledBefore(marks, key, n); }
    }
  }

  /** A call goes exactly when the same call came before, here or in an earlier source. */
  lemma {:induction false} CallGoesIff(marks: seq<Mark>, seen: set<CallKey>, i: nat)
    requires i < |marks| && marks[i].Call?
    ensures ScanRun(marks, seen, |marks|).gone[i] <==>
      marks[i].key.Some? && (marks[i].key.value in seen || CalledBefore(marks, marks[i].key.value, i))
  {
    ScanGone(marks, seen, |marks|, i);
    if marks[i].key.Some? { ScanSeen(marks, seen, i, marks[i].key.value); }
  }

  function IdKey(id: string): Key { Key(ServerToClient, id) }

  /** The scan and the pairing see the same client requests and server responses. */
  predicate Agree(act: Act, mark: Mark) {
    match mark
    case Call(_, id) => act == Ask(ClientToServer, KeyOf(ServerToClient, id))
    case Answer(id) => act == Reply(ServerToClient, KeyOf(ServerToClient, id))
    case Other =>
      (act.Ask? || act.Reply?) && act.key.Some? ==> act.key.value.responder == ClientToServer
  }

  lemma {:induction false} MarkAgrees(m: StoredMessage)
    ensures Agree(ActOf(m), MarkOf(m))
    ensures MarkOf(m).Other? ==> !(ActOf(m).Ask? && ActOf(m).from == ClientToServer)
    ensures MarkOf(m).Other? ==> !(ActOf(m).Reply? && ActOf(m).from == ServerToClient)
  {
  }

  ghost predicate AllAgree(all: seq<Seen>, marks: seq<Mark>) {
    |all| == |marks| && forall i :: 0 <= i < |all| ==> Agree(all[i].act, marks[i])
  }

  predicate Notes(s: Scan, j: nat, id: string) { j < |s.gone| && id in s.pending && s.pending[id] == s.gone[j] }

  /** The pending map says, for every id, whether the request held for it goes. */
  ghost predicate PendingHeld(all: seq<Seen>, s: Scan)
    requires |s.gone| <= |all|
  {
    var n := |s.gone|;
    && (forall j: nat, id :: Held(all, j, n, IdKey(id)) ==> Notes(s, j, id))
    && (forall id :: id in s.pending ==> exists j: nat :: Held(all, j, n, IdKey(id)))
  }

  lemma {:induction false} HeldNext(all: seq<Seen>, j: nat, n: nat, key: Key)
    requires n < |all|
    ensures Held(all, j, n + 1, key) <==>
      if RequestKey(all[n]) == Some(key) then j == n else Held(all, j, n, key) && ReplyKey(all[n]) != Some(key)
  {
  }

  lemma {:induction false} PendingHeldStep(all: seq<Seen>, s: Scan, mark: Mark)
    requires |s.gone| < |all| && Agree(all[|s.gone|].act, mark) && PendingHeld(all, s)
    ensures PendingHeld(all, ScanStep(s, mark))
  {
    var n, t := |s.gone|, ScanStep(s, mark);
    var next := |t.gone|;
    assert next == n + 1;
    forall j: nat, id | Held(all, j, next, IdKey(id)) ensures Notes(t, j, id) {
      HeldNext(all, j, n, IdKey(id));
      if RequestKey(all[n]) != Some(IdKey(id)) { assert Notes(s, j, id); }
    }
    forall id | id in t.pending ensures exists j: nat :: Held(all, j, next, IdKey(id)) {
      if RequestKey(all[n]) == Some(IdKey(id)) {
        HeldNext(all, n, n, IdKey(id));
      } else {
        var j: nat :| Held(all, j, n, IdKey(id));
        HeldNext(all, j, n, IdKey(id));
      }
    }
  }

  lemma {:induction false} PendingHeldRun(all: seq<Seen>, marks: seq<Mark>, seen: set<CallKey>, n: nat)
    requires AllAgree(all, marks) && n <= |all|
    ensures PendingHeld(all, ScanRun(marks, seen, n))
  {
    if n > 0 {
      PendingHeldRun(all, marks, seen, n - 1);
      PendingHeldStep(all, ScanRun(marks, seen, n - 1), marks[n - 1]);
    }
  }

  lemma {:induction false} AnswerGoesIff(all: seq<Seen>, marks: seq<Mark>, seen: set<CallKey>, i: nat, id: string)
    requires AllAgree(all, marks) && i < |all| && marks[i] == Answer(Some(id))
    ensures var gone := ScanRun(marks, seen, |marks|).gone; gone[i] <==> HeldGone(all, gone, i, IdKey(id))
  {
    var s, gone := ScanRun(marks, seen, i), ScanRun(marks, seen, |marks|).gone;
    ScanGone(marks, seen, |marks|, i);
    PendingHeldRun(all, marks, seen, i);
    forall j: nat | Held(all, j, i, IdKey(id)) ensures Notes(s, j, id) && gone[j] == s.gone[j] {
      assert Notes(s, j, id);
      ScanGone(marks, seen, i, j);
      ScanGone(marks, seen, |marks|, j);
    }
  }

  /** What the scan removes is consistent: a response goes with the request held for its id. */
  lemma {:induction false} ScanConsistent(all: seq<Seen>, marks: seq<Mark>, seen: set<CallKey>)
    requires AllAgree(all, marks)
    requires forall i :: 0 <= i < |all| && marks[i].Other? ==> !(all[i].act.Reply? && all[i].act.from == ServerToClient)
    ensures Consistent(all, ScanRun(marks, seen, |marks|).gone)
  {
    var gone := ScanRun(marks, seen, |marks|).gone;
    forall i | 0 <= i < |all| && gone[i]
      ensures all[i].act.Reply? || (all[i].act.Ask? && all[i].act.from == ClientToServer)
    {
      ScanGone(marks, seen, |marks|, i);
    }
    forall i | 0 <= i < |all| && all[i].act.Reply?
      ensures gone[i] <==> ReplyKey(all[i]).Some? && HeldGone(all, gone, i, ReplyKey(all[i]).value)
    {
      ScanGone(marks, seen, |marks|, i);
      if marks[i].Answer? && marks[i].id.Some? {
        AnswerGoesIff(all, marks, seen, i, marks[i].id.value);
      } else if ReplyKey(all[i]).Some? {
        forall j: nat | Held(all, j, i, ReplyKey(all[i]).value) ensures !gone[j] { ScanGone(marks, seen, |marks|, j); }
      }
    }
  }

  lemma {:induction false} GoneConsistent(messages: seq<StoredMessage>, seen: set<CallKey>)
    ensures Consistent(See(messages), Gone(messages, seen))
  {
    forall i | 0 <= i < |messages|
      ensures Agree(See(messages)[i].act, Marks(messages)[i])
      ensures Marks(messages)[i].Other? ==>
        !(See(messages)[i].act.Reply? && See(messages)[i].act.from == ServerToClient)
    {
      MarkAgrees(messages[i]);
    }
    ScanConsistent(See(messages), Marks(messages), seen);
  }

  predicate Ordered(messages: seq<StoredMessage>) {
    forall i, j :: 0 <= i < j < |messages| ==> messages[i].num < messages[j].num
  }

  lemma {:induction false} FilterIsKept(messages: seq<StoredMessage>, gone: seq<bool>, n: nat)
    requires n <= |messages| == |gone| && Ordered(messages)
    ensures Filter(messages, RemovedNums(messages, gone), n) == Kept(messages, gone, n)
  {
    if n > 0 { FilterIsKept(messages, gone, n - 1); }
  }

  lemma {:induction false} SeeKept(messages: seq<StoredMessage>, all: seq<Seen>, gone: seq<bool>, n: nat)
    requires n <= |messages| == |all| == |gone| && forall i :: 0 <= i < |all| ==>
      all[i] == Seen(messages[i], ActOf(messages[i]))
    ensures See(Kept(messages, gone, n)) == Kept(all, gone, n)
  {
    if n > 0 {
      SeeKept(messages, all, gone, n - 1);
      SeeAppend(Kept(messages, gone, n - 1), messages[n - 1]);
      assert gone[n - 1] ==> Kept(messages, gone, n) == Kept(messages, gone, n - 1);
    }
  }

  lemma {:induction false} SeeAppend(messages: seq<StoredMessage>, m: StoredMessage)
    ensures See(messages + [m]) == See(messages) + [Seen(m, ActOf(m))]
  {
  }

  lemma {:induction false} KeptBelow(messages: seq<StoredMessage>, gone: seq<bool>, n: nat, bound: nat)
    requires n <= |messages| == |gone| && forall i :: 0 <= i < n ==> messages[i].num < bound
    ensures forall m :: m in Kept(messages, gone, n) ==> m.num < bound
  {
    if n > 0 { KeptBelow(messages, gone, n - 1, bound); }
  }

  lemma {:induction false} OrderedAppend(messages: seq<StoredMessage>, m: StoredMessage)
    requires Ordered(messages) && forall k :: k in messages ==> k.num < m.num
    ensures Ordered(messages + [m])
  {
  }

  lemma {:induction false} KeptOrdered(messages: seq<StoredMessage>, gone: seq<bool>, n: nat)
    requires n <= |messages| == |gone| && Ordered(messages)
    ensures Ordered(Kept(messages, gone, n))
  {
    if n > 0 {
      KeptOrdered(messages, gone, n - 1);
      KeptBelow(messages, gone, n - 1, messages[n - 1].num);
      OrderedAppend(Kept(messages, gone, n - 1), messages[n - 1]);
      assert gone[n - 1] ==> Kept(messages, gone, n) == Kept(messages, gone, n - 1);
    }
  }

  /** The log without its repeated calls. */
  function Deduplicated(messages: seq<StoredMessage>, seen: set<CallKey>): seq<StoredMessage> {
    Filter(messages, RemovedNums(messages, Gone(messages, seen)), |messages|)
  }

  lemma {:induction false} DeduplicatedRun(messages: seq<StoredMessage>, seen: set<CallKey>)
    requires Session.Increasing(See(messages))
    ensures var kept, all := Deduplicated(messages, seen), See(messages);
      && See(kept) == Kept(all, Gone(messages, seen), |all|)
      && Session.Correlated(kept) == (Run(See(kept), |kept|).exchanges, Run(See(kept), |kept|).notifications)
  {
    var all, gone := See(messages), Gone(messages, seen);
    assert forall i :: 0 <= i < |messages| ==> all[i].m == messages[i];
    FilterIsKept(messages, gone, |messages|);
    SeeKept(messages, all, gone, |all|);
    KeptOrdered(messages, gone, |messages|);
    Session.NothingToSort(Kept(messages, gone, |messages|));
  }

  /** The messages that are to go, declared: a call that came before, here or in an earlier source, and a response to
   *  the request last made under its id if that one goes. */
  ghost predicate Repeats(messages: seq<StoredMessage>, seen: set<CallKey>, gone: seq<bool>) {
    |gone| == |messages| && forall i :: 0 <= i < |messages| ==> (gone[i] <==> IsRepeat(messages, seen, gone, i))
  }

  ghost predicate IsRepeat(messages: seq<StoredMessage>, seen: set<CallKey>, gone: seq<bool>, i: nat)
    requires i < |messages| == |gone|
  {
    match MarkOf(messages[i])
    case Call(key, _) => key.Some? && (key.value in seen || CalledBefore(Marks(messages), key.value, i))
    case Answer(id) => id.Some? && HeldGone(See(messages), gone, i, IdKey(id.value))
    case Other => false
  }

  lemma {:induction false} MarksAgree(messages: seq<StoredMessage>)
    ensures AllAgree(See(messages), Marks(messages))
  {
    forall i | 0 <= i < |messages| ensures Agree(See(messages)[i].act, Marks(messages)[i]) { MarkAgrees(messages[i]); }
  }

  lemma {:induction false} GoneIsRepeat(messages: seq<StoredMessage>, seen: set<CallKey>, i: nat)
    requires i < |messages|
    ensures Gone(messages, seen)[i] <==> IsRepeat(messages, seen, Gone(messages, seen), i)
  {
    var marks := Marks(messages);
    match MarkOf(messages[i])
    case Call(_, _) => CallGoesIff(marks, seen, i);
    case Answer(id) =>
      if id.Some? {
        MarksAgree(messages);
        AnswerGoesIff(See(messages), marks, seen, i, id.value);
      } else {
        ScanGone(marks, seen, |marks|, i);
      }
    case Other => ScanGone(marks, seen, |marks|, i);
  }

  lemma {:induction false} SameRepeats(messages: seq<StoredMessage>, seen: set<CallKey>, a: seq<bool>, b: seq<bool>,
                                       i: nat)
    requires Repeats(messages, seen, a) && Repeats(messages, seen, b) && i < |messages|
    ensures a[i] == b[i]
    decreases i
  {
    forall j | 0 <= j < i ensures a[j] == b[j] { SameRepeats(messages, seen, a, b, j); }
    assert IsRepeat(messages, seen, a, i) <==> IsRepeat(messages, seen, b, i);
  }

  /** The scan finds exactly those. */
  lemma {:induction false} RepeatsIff(messages: seq<StoredMessage>, seen: set<CallKey>, gone: seq<bool>)
    ensures Repeats(messages, seen, gone) <==> gone == Gone(messages, seen)
  {
    var scanned := Gone(messages, seen);
    assert Repeats(messages, seen, scanned) by {
      forall i | 0 <= i < |messages| ensures scanned[i] <==> IsRepeat(messages, seen, scanned, i) {
        GoneIsRepeat(messages, seen, i);
      }
    }
    if Repeats(messages, seen, gone) {
      forall i | 0 <= i < |messages| ensures gone[i] == scanned[i] { SameRepeats(messages, seen, gone, scanned, i); }
    }
  }

  /** Deduplication commutes with pairing: the shorter log's view is the full view without the exchanges of the repeated
   *  calls, exactly when no response that goes belonged to a cancelled call and no kept message acts on a request that
   *  waits only because the one that displaced it goes. The notifications are always the same. */
  lemma {:induction false} DedupCommutesIff(messages: seq<StoredMessage>, seen: set<CallKey>, gone: seq<bool>)
    requires Session.Increasing(See(messages)) && Repeats(messages, seen, gone)
    ensures var kept := Deduplicated(messages, seen);
      && (Session.Correlated(kept).0 == Without(Session.Correlated(messages).0, RemovedNums(messages, gone)) <==>
          Undisturbed(See(messages), gone))
      && Session.Correlated(kept).1 == Session.Correlated(messages).1
  {
    var all := See(messages);
    RepeatsIff(messages, seen, gone);
    GoneConsistent(messages, seen);
    DeduplicatedRun(messages, seen);
    Session.NothingToSort(messages);
    RemovalIff(all, gone);
    KeptNotifications(all, gone);
    assert forall i :: 0 <= i < |messages| ==> all[i].m == messages[i];
    assert GoneNums(all, gone) == RemovedNums(messages, gone);
  }

  /** Without cancellations and without client requests taking an id still in flight, deduplication commutes with
   *  pairing. */
  lemma {:induction false} CalmDedupCommutes(messages: seq<StoredMessage>, seen: set<CallKey>, gone: seq<bool>)
    requires Session.Increasing(See(messages)) && Calm(See(messages)) && Repeats(messages, seen, gone)
    ensures Session.Correlated(Deduplicated(messages, seen)).0 ==
      Without(Session.Correlated(messages).0, RemovedNums(messages, gone))
  {
    RepeatsIff(messages, seen, gone);
    GoneConsistent(messages, seen);
    CalmUndisturbed(See(messages), gone);
    DedupCommutesIff(messages, seen, gone);
  }

  // ---------------------------------------------------------------- where it does not commute

  function Recorded(num: nat, direction: string, payload: Json): StoredMessage {
    StoredMessage(num, num, direction, Derived(payload), Some(payload), 0)
  }

  function Ping(num: nat, id: int): StoredMessage {
    Recorded(num, "c2s", Obj(map["jsonrpc" := Str("2.0"), "id" := Num(Int(id)), "method" := Str("ping")]))
  }

  function Answering(num: nat, id: int): StoredMessage {
    Recorded(num, "s2c", Obj(map["jsonrpc" := Str("2.0"), "id" := Num(Int(id)), "result" := Obj(map[])]))
  }

  function Cancellation(num: nat, id: int): StoredMessage {
    Recorded(num, "c2s", Obj(map["jsonrpc" := Str("2.0"), "method" := Str("notifications/cancelled"),
                                 "params" := Obj(map["requestId" := Num(Int(id))])]))
  }

  function IdText(id: int): string { Text(Num(Int(id))) }

  const PING := CallKey("ping", None, Text(Null))

  lemma {:induction false} PingMeans(num: nat, id: int)
    ensures ActOf(Ping(num, id)) == Ask(ClientToServer, Some(IdKey(IdText(id))))
    ensures MarkOf(Ping(num, id)) == Call(Some(PING), Some(IdText(id)))
  {
    var p := Ping(num, id).payload.value;
    assert p.Get("id") == Some(Num(Int(id))) && GetStr(p, "method") == Some("ping") && p.Get("params").None?;
  }

  lemma {:induction false} ReplyMeans(num: nat, id: int)
    ensures ActOf(Answering(num, id)) == Reply(ServerToClient, Some(IdKey(IdText(id))))
    ensures MarkOf(Answering(num, id)) == Answer(Some(IdText(id)))
  {
    var p := Answering(num, id).payload.value;
    assert p.Get("id") == Some(Num(Int(id))) && GetStr(p, "method").None?;
  }

  lemma {:induction false} CancellationMeans(num: nat, id: int)
    ensures ActOf(Cancellation(num, id)) == Notify(ClientToServer, Some(IdKey(IdText(id))), None)
    ensures MarkOf(Cancellation(num, id)) == Other
  {
    var p := Cancellation(num, id).payload.value;
    assert p.Get("id").None? && GetStr(p, "method") == Some("notifications/cancelled");
    assert p.Get("params") == Some(Obj(map["requestId" := Num(Int(id))]));
  }

  lemma {:induction false} OtherId(a: int, b: int)
    requires a != b
    ensures IdText(a) != IdText(b)
  {
    TextInjective(Num(Int(a)), Num(Int(b)));
  }

  lemma {:induction false} ScanOfFour(a: Mark, b: Mark, c: Mark, d: Mark)
    ensures ScanRun([a, b, c, d], {}, 4) ==
      ScanStep(ScanStep(ScanStep(ScanStep(Scan({}, map[], [], 0), a), b), c), d)
  {
    var marks := [a, b, c, d];
    assert ScanRun(marks, {}, 0) == Scan({}, map[], [], 0);
    assert ScanRun(marks, {}, 1) == ScanStep(ScanRun(marks, {}, 0), a);
    assert ScanRun(marks, {}, 2) == ScanStep(ScanRun(marks, {}, 1), b);
    assert ScanRun(marks, {}, 3) == ScanStep(ScanRun(marks, {}, 2), c);
  }

  lemma {:induction false} RepeatAndCancel(call: CallKey, one: string, two: string)
    requires one != two
    ensures ScanRun([Call(Some(call), Some(one)), Call(Some(call), Some(two)), Other, Answer(Some(two))], {}, 4).gone
      == [false, true, false, true]
  {
    ScanOfFour(Call(Some(call), Some(one)), Call(Some(call), Some(two)), Other, Answer(Some(two)));
    assert ScanStep(Scan({}, map[], [], 0), Call(Some(call), Some(one))) == Scan({call}, map[one := false], [false], 0);
  }

  lemma {:induction false} RepeatAndReuse(call: CallKey, one: string)
    ensures ScanRun([Call(Some(call), Some(one)), Call(Some(call), Some(one)), Answer(Some(one)), Answer(Some(one))],
                    {}, 4).gone
      == [false, true, true, false]
  {
    ScanOfFour(Call(Some(call), Some(one)), Call(Some(call), Some(one)), Answer(Some(one)), Answer(Some(one)));
    assert ScanStep(Scan({}, map[], [], 0), Call(Some(call), Some(one))) == Scan({call}, map[one := false], [false], 0);
  }

  /** A ping, the same ping again, its cancellation, and an answer to it all the same. */
  function CancelledLog(): seq<StoredMessage> { [Ping(0, 1), Ping(1, 2), Cancellation(2, 2), Answering(3, 2)] }

  /** A ping, the same ping again under the same id, and two answers. */
  function ReusedLog(): seq<StoredMessage> { [Ping(0, 1), Ping(1, 1), Answering(2, 1), Answering(3, 1)] }

  /** A repeated call that was cancelled and answered all the same: its response goes with it, though in the full view
   *  it is an orphan that no removed exchange holds. */
  lemma {:induction false} CancelledRepeat()
    ensures var m, gone := CancelledLog(), [false, true, false, true];
      && Session.Increasing(See(m)) && Repeats(m, {}, gone)
      && Session.Correlated(Deduplicated(m, {})).0 != Without(Session.Correlated(m).0, RemovedNums(m, gone))
  {
    var m, gone := CancelledLog(), [false, true, false, true];
    CancelledMeans();
    OtherId(1, 2);
    RepeatAndCancel(PING, IdText(1), IdText(2));
    RepeatsIff(m, {}, gone);
    CancelledStray(See(m), gone, IdKey(IdText(2)));
    DedupCommutesIff(m, {}, gone);
  }

  lemma {:induction false} MarksOfFour(m: seq<StoredMessage>)
    requires |m| == 4
    ensures Marks(m) == [MarkOf(m[0]), MarkOf(m[1]), MarkOf(m[2]), MarkOf(m[3])]
  {
  }

  lemma {:induction false} SeenOfFour(m: seq<StoredMessage>)
    requires |m| == 4 && m[0].num < m[1].num < m[2].num < m[3].num
    ensures Session.Increasing(See(m))
    ensures |See(m)| == 4 && forall i :: 0 <= i < 4 ==> See(m)[i].act == ActOf(m[i])
  {
  }

  lemma {:induction false} CancelledMeans()
    ensures var m := CancelledLog();
      && Session.Increasing(See(m))
      && Marks(m) ==
        [Call(Some(PING), Some(IdText(1))), Call(Some(PING), Some(IdText(2))), Other, Answer(Some(IdText(2)))]
      && CancelKey(See(m)[2]) == Some(IdKey(IdText(2)))
      && See(m)[3].act == Reply(ServerToClient, Some(IdKey(IdText(2))))
  {
    PingMeans(0, 1);
    PingMeans(1, 2);
    CancellationMeans(2, 2);
    ReplyMeans(3, 2);
    MarksOfFour(CancelledLog());
    SeenOfFour(CancelledLog());
  }

  lemma {:induction false} CancelledStray(all: seq<Seen>, gone: seq<bool>, key: Key)
    requires |all| == 4 && gone == [false, true, false, true]
    requires CancelKey(all[2]) == Some(key) && all[3].act == Reply(key.responder, Some(key))
    ensures !Undisturbed(all, gone)
  {
    assert Closes(all[2], key);
    assert StrayRemoved(all, gone, 3);
  }

  /** A repeated call under the id of the one in flight, answered twice: the second response, an orphan in the full
   *  view, answers the first call in the shorter one. */
  lemma {:induction false} ReusedId()
    ensures var m, gone := ReusedLog(), [false, true, true, false];
      && Session.Increasing(See(m)) && Repeats(m, {}, gone)
      && Session.Correlated(Deduplicated(m, {})).0 != Without(Session.Correlated(m).0, RemovedNums(m, gone))
  {
    var m, gone := ReusedLog(), [false, true, true, false];
    ReusedMeans();
    RepeatAndReuse(PING, IdText(1));
    RepeatsIff(m, {}, gone);
    ReusedRevived(See(m), gone, IdKey(IdText(1)));
    DedupCommutesIff(m, {}, gone);
  }

  lemma {:induction false} ReusedMeans()
    ensures var m, one := ReusedLog(), IdText(1);
      && Session.Increasing(See(m))
      && Marks(m) == [Call(Some(PING), Some(one)), Call(Some(PING), Some(one)), Answer(Some(one)), Answer(Some(one))]
      && RequestKey(See(m)[0]) == Some(IdKey(one)) && RequestKey(See(m)[1]) == Some(IdKey(one))
      && ReplyKey(See(m)[2]) == Some(IdKey(one)) && ReplyKey(See(m)[3]) == Some(IdKey(one))
  {
    PingMeans(0, 1);
    PingMeans(1, 1);
    ReplyMeans(2, 1);
    ReplyMeans(3, 1);
    MarksOfFour(ReusedLog());
    SeenOfFour(ReusedLog());
  }

  lemma {:induction false} ReusedRevived(all: seq<Seen>, gone: seq<bool>, key: Key)
    requires |all| == 4 && gone == [false, true, true, false]
    requires RequestKey(all[0]) == Some(key) && RequestKey(all[1]) == Some(key)
    requires ReplyKey(all[2]) == Some(key) && ReplyKey(all[3]) == Some(key)
    ensures !Undisturbed(all, gone)
  {
    assert Closes(all[1], key);
    assert Revived(all, gone, 0, 3);
  }
}
