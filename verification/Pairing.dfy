/** Pairing requests with responses in a recorded session. */
module Pairing {
  import opened Json
  import opened Protocol

  datatype Status = Answered | Failed | ToolFailed | Subscribed | Cancelled | Unanswered | Orphan

  datatype Exchange = Exchange(requestSeq: Option<nat>, responseSeq: Option<nat>, rpcId: Option<string>,
                               origin: Direction,
                               method_: Option<string>, tool: Option<string>, status: Status, latency: Option<int>,
                               errorCode: Option<int>, requestTs: Option<int>, responseTs: Option<int>)

  datatype Notification = Notification(num: nat, ts: int, direction: Direction, method_: string)

  /** The side that answers, and the JSON text of the id: ids are scoped to their originator. */
  datatype Key = Key(responder: Direction, id: string)

  // ---------------------------------------------------------------- one message

  /** What one message is to the pairing. */
  datatype Act =
    | Skip
    | Ask(from: Direction, key: Option<Key>)
    | Reply(from: Direction, key: Option<Key>)
    | Notify(from: Direction, cancels: Option<Key>, acknowledges: Option<Key>)

  function ScalarText(v: Option<Json>): Option<string> {
    if v.Some? && (v.value.Str? || v.value.Num?) then Some(Text(v.value)) else None
  }

  /** `/params/requestId`. */
  function CancelledId(payload: Option<Json>): Option<string> {
    ScalarText(Child(Child(payload, "params"), "requestId"))
  }

  /** `/params/_meta/io.modelcontextprotocol~1subscriptionId`. */
  function SubscriptionId(payload: Option<Json>): Option<string> {
    ScalarText(Child(Child(Child(payload, "params"), "_meta"), "io.modelcontextprotocol/subscriptionId"))
  }

  function KeyOf(responder: Direction, id: Option<string>): Option<Key> {
    match id case Some(text) => Some(Key(responder, text)) case None => None
  }

  function ActOf(m: StoredMessage): Act {
    match FromName(m.direction)
    case None => Skip
    case Some(dir) =>
      if m.fields.kind == "request" then Ask(dir, KeyOf(dir.Opposite(), m.fields.rpcId))
      else if m.fields.kind == "response" then Reply(dir, KeyOf(dir, m.fields.rpcId))
      else if m.fields.kind == "notification" then
        Notify(dir,
               if m.fields.method_ == Some("notifications/cancelled")
               then KeyOf(dir.Opposite(), CancelledId(m.payload)) else None,
               if dir == ServerToClient && m.fields.method_ == Some("notifications/subscriptions/acknowledged")
               then KeyOf(dir, SubscriptionId(m.payload)) else None)
      else Skip
  }

  /** A message with what it is to the pairing; the theorems below hold whatever that is. */
  datatype Seen = Seen(m: StoredMessage, act: Act)

  function See(messages: seq<StoredMessage>): seq<Seen> {
    seq(|messages|, i requires 0 <= i < |messages| => Seen(messages[i], ActOf(messages[i])))
  }

  function Opened(m: StoredMessage, dir: Direction): Exchange {
    Exchange(Some(m.num), None, m.fields.rpcId, dir, m.fields.method_, m.fields.tool, Unanswered, None, None,
             Some(m.ts), None)
  }

  function OrphanOf(m: StoredMessage, dir: Direction): Exchange {
    Exchange(None, Some(m.num), m.fields.rpcId, dir.Opposite(), None, None, Orphan, None, m.fields.errorCode, None,
             Some(m.ts))
  }

  /** `/result/isError` is true. */
  predicate ReportsToolError(payload: Option<Json>) {
    Child(Child(payload, "result"), "isError") == Some(Bool(true))
  }

  function AnsweredBy(e: Exchange, m: StoredMessage): Exchange {
    e.(responseSeq := Some(m.num), responseTs := Some(m.ts), errorCode := m.fields.errorCode,
       latency := if e.requestTs.Some? then Some(m.ts - e.requestTs.value) else e.latency,
       status := if m.fields.isError then Failed
                 else if e.method_ == Some("tools/call") && ReportsToolError(m.payload) then ToolFailed
                 else Answered)
  }

  predicate MaySubscribe(e: Exchange) { e.origin == ClientToServer && e.method_ == Some("subscriptions/listen") }

  // ---------------------------------------------------------------- the single pass

  datatype State = State(exchanges: seq<Exchange>, notifications: seq<Notification>, pending: map<Key, nat>)

  predicate InRange(s: State) { forall k :: k in s.pending ==> s.pending[k] < |s.exchanges| }

  const START := State([], [], map[])

  function Step(s: State, o: Seen): (t: State)
    requires InRange(s)
    ensures InRange(t)
  {
    match o.act
    case Skip => s
    case Ask(dir, key) =>
      s.(exchanges := s.exchanges + [Opened(o.m, dir)],
         pending := if key.Some? then s.pending[key.value := |s.exchanges|] else s.pending)
    case Reply(dir, key) =>
      if key.Some? && key.value in s.pending then
        var idx := s.pending[key.value];
        s.(exchanges := s.exchanges[idx := AnsweredBy(s.exchanges[idx], o.m)], pending := s.pending - {key.value})
      else s.(exchanges := s.exchanges + [OrphanOf(o.m, dir)])
    case Notify(dir, cancels, acknowledges) =>
      var t := Acknowledge(Cancel(s, cancels), acknowledges);
      t.(notifications := t.notifications + [Notified(o.m, dir)])
  }

  function Notified(m: StoredMessage, dir: Direction): Notification {
    Notification(m.num, m.ts, dir, if m.fields.method_.Some? then m.fields.method_.value else "")
  }

  function Cancel(s: State, key: Option<Key>): (t: State)
    requires InRange(s)
    ensures InRange(t)
  {
    if key.Some? && key.value in s.pending then
      var idx := s.pending[key.value];
      s.(exchanges := s.exchanges[idx := s.exchanges[idx].(status := Cancelled)], pending := s.pending - {key.value})
    else s
  }

  function Acknowledge(s: State, key: Option<Key>): (t: State)
    requires InRange(s)
    ensures InRange(t)
  {
    if key.Some? && key.value in s.pending && MaySubscribe(s.exchanges[s.pending[key.value]]) then
      var idx := s.pending[key.value];
      s.(exchanges := s.exchanges[idx := s.exchanges[idx].(status := Subscribed)])
    else s
  }

  function Run(messages: seq<Seen>, n: nat): (s: State)
    requires n <= |messages|
    ensures InRange(s)
  {
    if n == 0 then START else Step(Run(messages, n - 1), messages[n - 1])
  }

  // ---------------------------------------------------------------- what pairing means

  function RequestKey(o: Seen): Option<Key> { if o.act.Ask? then o.act.key else None }

  function ReplyKey(o: Seen): Option<Key> { if o.act.Reply? then o.act.key else None }

  function CancelKey(o: Seen): Option<Key> { if o.act.Notify? then o.act.cancels else None }

  function AckKey(o: Seen): Option<Key> { if o.act.Notify? then o.act.acknowledges else None }

  /** A request, a response or a cancellation for the key: after it, no earlier request with the key waits. */
  predicate Closes(o: Seen, key: Key) {
    RequestKey(o) == Some(key) || ReplyKey(o) == Some(key) || CancelKey(o) == Some(key)
  }

  /** The first message in `from..n` that ends the waiting for `key`. */
  function FirstEnd(messages: seq<Seen>, key: Key, from: nat, n: nat): (k: Option<nat>)
    requires from <= n <= |messages|
    ensures k.Some? ==> from <= k.value < n && Closes(messages[k.value], key)
    ensures k.Some? ==> forall i :: from <= i < k.value ==> !Closes(messages[i], key)
    ensures k.None? ==> forall i :: from <= i < n ==> !Closes(messages[i], key)
    decreases n - from
  {
    if from == n then None else if Closes(messages[from], key) then Some(from) else FirstEnd(messages, key, from + 1, n)
  }

  /** Request `j` with this key still waits when message `n` arrives. */
  predicate Waits(messages: seq<Seen>, j: nat, n: nat, key: Key)
    requires n <= |messages|
  {
    j < n && RequestKey(messages[j]) == Some(key) && forall i :: j < i < n ==> !Closes(messages[i], key)
  }

  predicate AckedWithin(messages: seq<Seen>, key: Key, from: nat, to: nat)
    requires to <= |messages|
  {
    exists a :: from <= a < to && AckKey(messages[a]) == Some(key)
  }

  /** The exchange of request `j`, seen from message `n`: what first ends its waiting decides its fate. */
  function RequestOutcome(messages: seq<Seen>, j: nat, n: nat): Exchange
    requires j < n <= |messages| && messages[j].act.Ask?
  {
    var e := Opened(messages[j].m, messages[j].act.from);
    match RequestKey(messages[j])
    case None => e
    case Some(key) =>
      var end := FirstEnd(messages, key, j + 1, n);
      var seen := if MaySubscribe(e) && AckedWithin(messages, key, j + 1, if end.Some? then end.value else n)
                  then e.(status := Subscribed) else e;
      match end
      case None => seen
      case Some(k) =>
        if ReplyKey(messages[k]) == Some(key) then AnsweredBy(e, messages[k].m)
        else if CancelKey(messages[k]) == Some(key) then e.(status := Cancelled)
        else seen
  }

  /** Response `i` finds a request waiting. */
  ghost predicate Matched(messages: seq<Seen>, i: nat)
    requires i < |messages|
  {
    ReplyKey(messages[i]).Some? && exists j :: Waits(messages, j, i, ReplyKey(messages[i]).value)
  }

  /** Message `i` starts an exchange: every request does, and every response that matches none. */
  ghost predicate Starts(messages: seq<Seen>, i: nat)
    requires i < |messages|
  {
    messages[i].act.Ask? || (messages[i].act.Reply? && !Matched(messages, i))
  }

  ghost function Starters(messages: seq<Seen>, n: nat): (r: seq<nat>)
    requires n <= |messages|
    ensures forall x :: 0 <= x < |r| ==> r[x] < n && Starts(messages, r[x])
    ensures forall x, y :: 0 <= x < y < |r| ==> r[x] < r[y]
    ensures forall i :: 0 <= i < n && Starts(messages, i) ==> i in r
  {
    if n == 0 then []
    else if Starts(messages, n - 1) then Starters(messages, n - 1) + [n - 1]
    else Starters(messages, n - 1)
  }

  ghost function Outcome(messages: seq<Seen>, i: nat, n: nat): Exchange
    requires i < n <= |messages| && Starts(messages, i)
  {
    var act := messages[i].act;
    if act.Ask? then RequestOutcome(messages, i, n) else OrphanOf(messages[i].m, act.from)
  }

  // ---------------------------------------------------------------- the pass meets the meaning

  lemma {:induction false} WaitsOnce(messages: seq<Seen>, i: nat, j: nat, n: nat, key: Key)
    requires n <= |messages| && Waits(messages, i, n, key) && Waits(messages, j, n, key)
    ensures i == j
  {
    assert i < j ==> Closes(messages[j], key);
    assert j < i ==> Closes(messages[i], key);
  }

  lemma {:induction false} FirstEndNext(messages: seq<Seen>, key: Key, from: nat, n: nat)
    requires from <= n < |messages|
    ensures FirstEnd(messages, key, from, n + 1) ==
      if FirstEnd(messages, key, from, n).Some? then FirstEnd(messages, key, from, n)
      else if Closes(messages[n], key) then Some(n) else None
    decreases n - from
  {
    if from < n { FirstEndNext(messages, key, from + 1, n); }
  }

  /** How one more message changes a request's outcome. */
  lemma {:induction false} OutcomeNext(messages: seq<Seen>, j: nat, n: nat)
    requires j < n < |messages| && messages[j].act.Ask?
    ensures var key := RequestKey(messages[j]);
      var before, after := RequestOutcome(messages, j, n), RequestOutcome(messages, j, n + 1);
      if key.None? || !Waits(messages, j, n, key.value) then after == before
      else if ReplyKey(messages[n]) == key then after == AnsweredBy(before, messages[n].m)
      else if CancelKey(messages[n]) == key then after == before.(status := Cancelled)
      else if AckKey(messages[n]) == key && MaySubscribe(before) then after == before.(status := Subscribed)
      else after == before
  {
    var key := RequestKey(messages[j]);
    if key.Some? {
      FirstEndNext(messages, key.value, j + 1, n);
      if Waits(messages, j, n, key.value) {
        assert FirstEnd(messages, key.value, j + 1, n).None?;
        assert AckedWithin(messages, key.value, j + 1, n + 1) <==>
               AckedWithin(messages, key.value, j + 1, n) || AckKey(messages[n]) == key by {
          if AckKey(messages[n]) == key { assert AckedWithin(messages, key.value, j + 1, n + 1); }
        }
      } else {
        assert FirstEnd(messages, key.value, j + 1, n).Some?;
      }
    }
  }

  lemma {:induction false} WaitsNext(messages: seq<Seen>, j: nat, n: nat, key: Key)
    requires n < |messages|
    ensures Waits(messages, j, n + 1, key) <==>
      if j == n then RequestKey(messages[n]) == Some(key) else Waits(messages, j, n, key) && !Closes(messages[n], key)
  {
  }

  ghost predicate OutcomesMet(messages: seq<Seen>, n: nat, exchanges: seq<Exchange>)
    requires n <= |messages|
  {
    var starters := Starters(messages, n);
    |exchanges| == |starters| && forall x :: 0 <= x < |starters| ==> exchanges[x] == Outcome(messages, starters[x], n)
  }

  /** The pending map holds exactly the waiting requests. */
  ghost predicate PendingMet(messages: seq<Seen>, n: nat, pending: map<Key, nat>)
    requires n <= |messages|
  {
    var starters := Starters(messages, n);
    && (forall key :: key in pending ==> pending[key] < |starters| && Waits(messages, starters[pending[key]], n, key))
    && (forall j, key :: Waits(messages, j, n, key) ==> key in pending)
  }

  /** The request waiting for a pending key sits at its index, and at no other. */
  lemma {:induction false} WaitingAt(messages: seq<Seen>, n: nat, pending: map<Key, nat>, x: nat, key: Key)
    requires n <= |messages| && PendingMet(messages, n, pending) && x < |Starters(messages, n)|
    ensures Waits(messages, Starters(messages, n)[x], n, key) <==> key in pending && pending[key] == x
  {
    var starters := Starters(messages, n);
    if Waits(messages, starters[x], n, key) { WaitsOnce(messages, starters[x], starters[pending[key]], n, key); }
  }

  /** The key is pending, for the exchange at `x`. */
  predicate HitBy(pending: map<Key, nat>, key: Option<Key>, x: nat) {
    key.Some? && key.value in pending && pending[key.value] == x
  }

  /** What one message does to the exchange at `x`. */
  lemma {:induction false} OutcomeAt(messages: seq<Seen>, n: nat, pending: map<Key, nat>, x: nat)
    requires n < |messages| && PendingMet(messages, n, pending) && x < |Starters(messages, n)|
    ensures var i := Starters(messages, n)[x];
      var before, after := Outcome(messages, i, n), Outcome(messages, i, n + 1);
      var o := messages[n];
      if HitBy(pending, ReplyKey(o), x) then after == AnsweredBy(before, o.m)
      else if HitBy(pending, CancelKey(o), x) then after == before.(status := Cancelled)
      else if HitBy(pending, AckKey(o), x) && MaySubscribe(before) then after == before.(status := Subscribed)
      else after == before
  {
    var i, o := Starters(messages, n)[x], messages[n];
    if messages[i].act.Ask? {
      OutcomeNext(messages, i, n);
      if ReplyKey(o).Some? { WaitingAt(messages, n, pending, x, ReplyKey(o).value); }
      if CancelKey(o).Some? { WaitingAt(messages, n, pending, x, CancelKey(o).value); }
      if AckKey(o).Some? { WaitingAt(messages, n, pending, x, AckKey(o).value); }
    } else {
      if ReplyKey(o).Some? { WaitingAt(messages, n, pending, x, ReplyKey(o).value); }
      if CancelKey(o).Some? { WaitingAt(messages, n, pending, x, CancelKey(o).value); }
      if AckKey(o).Some? { WaitingAt(messages, n, pending, x, AckKey(o).value); }
    }
  }

  lemma {:induction false} StepPending(s: State, o: Seen, key: Key)
    requires InRange(s)
    ensures var pending := Step(s, o).pending;
      && (key in pending <==> RequestKey(o) == Some(key) || (key in s.pending && !Closes(o, key)))
      && (key in pending ==> pending[key] == if RequestKey(o) == Some(key) then |s.exchanges| else s.pending[key])
  {
  }

  lemma {:induction false} StepExchange(s: State, o: Seen, x: nat)
    requires InRange(s) && x < |s.exchanges|
      && (forall k, l :: k in s.pending && l in s.pending && s.pending[k] == s.pending[l] ==> k == l)
    ensures var before, after := s.exchanges[x], Step(s, o).exchanges;
      && |after| == |s.exchanges|
        + (if o.act.Ask? || (o.act.Reply? && !(o.act.key.Some? && o.act.key.value in s.pending)) then 1 else 0)
      && after[x] ==
        if HitBy(s.pending, ReplyKey(o), x) then AnsweredBy(before, o.m)
        else if HitBy(s.pending, CancelKey(o), x) then before.(status := Cancelled)
        else if HitBy(s.pending, AckKey(o), x) && MaySubscribe(before) then before.(status := Subscribed)
        else before
  {
  }

  lemma {:induction false} StepNew(s: State, o: Seen)
    requires InRange(s)
    ensures o.act.Ask? ==> Step(s, o).exchanges == s.exchanges + [Opened(o.m, o.act.from)]
    ensures o.act.Reply? && !(o.act.key.Some? && o.act.key.value in s.pending) ==>
      Step(s, o).exchanges == s.exchanges + [OrphanOf(o.m, o.act.from)]
    ensures !(o.act.Ask? || (o.act.Reply? && !(o.act.key.Some? && o.act.key.value in s.pending))) ==>
      |Step(s, o).exchanges| == |s.exchanges|
  {
  }

  lemma {:induction false} StartersNext(messages: seq<Seen>, n: nat)
    requires n < |messages|
    ensures Starters(messages, n + 1) ==
      if Starts(messages, n) then Starters(messages, n) + [n] else Starters(messages, n)
  {
  }

  lemma {:induction false} PendingStep(messages: seq<Seen>, n: nat, s: State)
    requires n < |messages| && InRange(s)
    requires OutcomesMet(messages, n, s.exchanges) && PendingMet(messages, n, s.pending)
    ensures PendingMet(messages, n + 1, Step(s, messages[n]).pending)
  {
    var starters, later := Starters(messages, n), Starters(messages, n + 1);
    var o, pending, next := messages[n], Step(s, messages[n]).pending, n + 1;
    StartersNext(messages, n);
    forall key | key in pending ensures pending[key] < |later| && Waits(messages, later[pending[key]], n + 1, key) {
      StepPending(s, o, key);
      WaitsNext(messages, later[pending[key]], n, key);
    }
    forall j, key | Waits(messages, j, next, key) ensures key in pending {
      StepPending(s, o, key);
      WaitsNext(messages, j, n, key);
    }
  }

  lemma {:induction false} PendingDistinct(messages: seq<Seen>, n: nat, pending: map<Key, nat>, k: Key, l: Key)
    requires n <= |messages| && PendingMet(messages, n, pending)
    requires k in pending && l in pending && pending[k] == pending[l]
    ensures k == l
  {
    var i := Starters(messages, n)[pending[k]];
    assert Waits(messages, i, n, k) && Waits(messages, i, n, l);
  }

  lemma {:induction false} OutcomesStep(messages: seq<Seen>, n: nat, s: State)
    requires n < |messages| && InRange(s)
    requires OutcomesMet(messages, n, s.exchanges) && PendingMet(messages, n, s.pending)
    ensures OutcomesMet(messages, n + 1, Step(s, messages[n]).exchanges)
  {
    var starters, later := Starters(messages, n), Starters(messages, n + 1);
    var o, exchanges := messages[n], Step(s, messages[n]).exchanges;
    StartsIff(messages, n, s);
    StartersNext(messages, n);
    forall k, l | k in s.pending && l in s.pending && s.pending[k] == s.pending[l] ensures k == l {
      PendingDistinct(messages, n, s.pending, k, l);
    }
    forall x | 0 <= x < |starters| ensures exchanges[x] == Outcome(messages, starters[x], n + 1) {
      OutcomeAt(messages, n, s.pending, x);
      StepExchange(s, o, x);
    }
    StepNew(s, o);
    forall x | 0 <= x < |later| ensures exchanges[x] == Outcome(messages, later[x], n + 1) {
      assert x < |starters| || later[x] == n;
    }
  }

  /** The pass starts a new exchange exactly where the meaning does. */
  lemma {:induction false} StartsIff(messages: seq<Seen>, n: nat, s: State)
    requires n < |messages| && InRange(s) && PendingMet(messages, n, s.pending)
    ensures var o := messages[n];
      Starts(messages, n) <==> o.act.Ask? || (o.act.Reply? && !(o.act.key.Some? && o.act.key.value in s.pending))
  {
    var key := ReplyKey(messages[n]);
    if key.Some? && key.value in s.pending {
      assert Waits(messages, Starters(messages, n)[s.pending[key.value]], n, key.value);
    }
  }

  function NotificationsIn(messages: seq<Seen>, n: nat): seq<Notification>
    requires n <= |messages|
  {
    if n == 0 then [] else
    var o := messages[n - 1];
    NotificationsIn(messages, n - 1) + (if o.act.Notify? then [Notified(o.m, o.act.from)] else [])
  }

  lemma {:induction false} StepNotifications(s: State, o: Seen)
    requires InRange(s)
    ensures Step(s, o).notifications == s.notifications + if o.act.Notify? then [Notified(o.m, o.act.from)] else []
  {
  }

  /** The state is what the declared meaning of the first `n` messages says. */
  ghost predicate Meets(messages: seq<Seen>, n: nat, s: State)
    requires n <= |messages|
  {
    OutcomesMet(messages, n, s.exchanges) && PendingMet(messages, n, s.pending)
      && s.notifications == NotificationsIn(messages, n)
  }

  lemma {:induction false} StepMeets(messages: seq<Seen>, n: nat, s: State)
    requires n < |messages| && InRange(s) && Meets(messages, n, s)
    ensures Meets(messages, n + 1, Step(s, messages[n]))
  {
    PendingStep(messages, n, s);
    OutcomesStep(messages, n, s);
    StepNotifications(s, messages[n]);
  }

  /** What holds at the start and is kept by every step holds after any number of messages. */
  lemma {:induction false} RunInvariant(messages: seq<Seen>, n: nat, kept: (nat, State) -> bool)
    requires n <= |messages| && kept(0, START)
    requires forall i: nat, s: State :: i < n && InRange(s) && kept(i, s) ==> kept(i + 1, Step(s, messages[i]))
    ensures kept(n, Run(messages, n))
  {
    if n > 0 {
      RunInvariant(messages, n - 1, kept);
      assert kept(n - 1, Run(messages, n - 1));
    }
  }

  /** The single pass computes, for every prefix, exactly the declared outcomes, and its pending map is exactly the
   *  waiting requests. */
  lemma {:induction false} RunMeets(messages: seq<Seen>, n: nat)
    requires n <= |messages|
    ensures Meets(messages, n, Run(messages, n))
  {
    var kept := (i: nat, s: State) => i <= |messages| && Meets(messages, i, s);
    forall i: nat, s: State | i < n && InRange(s) && kept(i, s) ensures kept(i + 1, Step(s, messages[i])) {
      StepMeets(messages, i, s);
    }
    RunInvariant(messages, n, kept);
  }
}
