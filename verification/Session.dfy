/** The session view built on the pairing: stable order, totals, and the integrity verdict. */
module Session {
  import opened Json
  import opened Protocol
  import opened Pairing
  import opened Sorting

  const KEY: Exchange -> int := e => SortKey(e)

  function SortKey(e: Exchange): nat {
    if e.requestSeq.Some? then e.requestSeq.value else if e.responseSeq.Some? then e.responseSeq.value else U64_MAX
  }

  // ---------------------------------------------------------------- the session view

  /** Totals of the status field and of the tool names. */
  datatype Stats = Stats(total: nat, ok: nat, errors: nat, unanswered: nat, cancelled: nat, orphans: nat,
                         notifications: nat, slowest: Option<int>, calls: map<string, nat>)

  datatype Model = Model(exchanges: seq<Exchange>, notifications: seq<Notification>, stats: Stats)

  function Tally(exchanges: seq<Exchange>, n: nat, statuses: set<Status>): nat
    requires n <= |exchanges|
  {
    if n == 0 then 0 else Tally(exchanges, n - 1, statuses) + if exchanges[n - 1].status in statuses then 1 else 0
  }

  function Calls(exchanges: seq<Exchange>, n: nat, tool: string): nat
    requires n <= |exchanges|
  {
    if n == 0 then 0 else Calls(exchanges, n - 1, tool) + if exchanges[n - 1].tool == Some(tool) then 1 else 0
  }

  predicate Slowest(exchanges: seq<Exchange>, n: nat, slowest: Option<int>)
    requires n <= |exchanges|
  {
    && (forall i :: 0 <= i < n && exchanges[i].latency.Some? ==>
          slowest.Some? && exchanges[i].latency.value <= slowest.value)
    && (slowest.Some? ==> exists i :: 0 <= i < n && exchanges[i].latency == slowest)
  }

  ghost predicate CallsMet(exchanges: seq<Exchange>, n: nat, calls: map<string, nat>)
    requires n <= |exchanges|
  {
    && (forall tool :: Calls(exchanges, n, tool) == if tool in calls then calls[tool] else 0)
    && (forall tool :: tool in calls ==> calls[tool] > 0)
  }

  predicate StatusesMet(exchanges: seq<Exchange>, n: nat, stats: Stats)
    requires n <= |exchanges|
  {
    && stats.ok == Tally(exchanges, n, {Answered, Subscribed})
    && stats.errors == Tally(exchanges, n, {Failed, ToolFailed})
    && stats.unanswered == Tally(exchanges, n, {Unanswered}) && stats.cancelled == Tally(exchanges, n, {Cancelled})
    && stats.orphans == Tally(exchanges, n, {Orphan})
    && stats.ok + stats.errors + stats.unanswered + stats.cancelled + stats.orphans == n
  }

  method CountStatus(exchanges: seq<Exchange>, i: nat, before: Stats) returns (stats: Stats)
    requires i < |exchanges| && StatusesMet(exchanges, i, before)
    ensures StatusesMet(exchanges, i + 1, stats)
    ensures stats == before.(ok := stats.ok, errors := stats.errors, unanswered := stats.unanswered,
                             cancelled := stats.cancelled, orphans := stats.orphans)
  {
    match exchanges[i].status {
      case Answered | Subscribed => stats := before.(ok := before.ok + 1);
      case Failed | ToolFailed => stats := before.(errors := before.errors + 1);
      case Cancelled => stats := before.(cancelled := before.cancelled + 1);
      case Unanswered => stats := before.(unanswered := before.unanswered + 1);
      case Orphan => stats := before.(orphans := before.orphans + 1);
    }
  }

  /** Every exchange is counted under exactly one of the five totals. */
  method ComputeStats(exchanges: seq<Exchange>, notifications: seq<Notification>) returns (stats: Stats)
    ensures stats.total == |exchanges| && stats.notifications == |notifications|
    ensures StatusesMet(exchanges, |exchanges|, stats)
    ensures Slowest(exchanges, |exchanges|, stats.slowest) && CallsMet(exchanges, |exchanges|, stats.calls)
  {
    stats := Stats(|exchanges|, 0, 0, 0, 0, 0, |notifications|, None, map[]);
    for i := 0 to |exchanges|
      invariant stats.total == |exchanges| && stats.notifications == |notifications|
      invariant StatusesMet(exchanges, i, stats)
      invariant Slowest(exchanges, i, stats.slowest)
      invariant CallsMet(exchanges, i, stats.calls)
    {
      var latency, tool := exchanges[i].latency, exchanges[i].tool;
      stats := CountStatus(exchanges, i, stats);
      if latency.Some? && (stats.slowest.None? || stats.slowest.value < latency.value) {
        stats := stats.(slowest := latency);
      }
      if tool.Some? {
        var count := if tool.value in stats.calls then stats.calls[tool.value] else 0;
        stats := stats.(calls := stats.calls[tool.value := count + 1]);
      }
    }
  }

  /** The exchanges and notifications of a log, in output order. */
  function Correlated(messages: seq<StoredMessage>): (seq<Exchange>, seq<Notification>) {
    var s := Run(See(messages), |messages|);
    (Sorted(s.exchanges, KEY), s.notifications)
  }

  method Correlate(messages: seq<StoredMessage>) returns (model: Model)
    ensures (model.exchanges, model.notifications) == Correlated(messages)
    ensures model.stats.total == |model.exchanges| && StatusesMet(model.exchanges, |model.exchanges|, model.stats)
  {
    var exchanges: seq<Exchange>, notifications: seq<Notification>, pending: map<Key, nat> := [], [], map[];
    ghost var all := See(messages);
    var i := 0;
    while i < |messages|
      invariant 0 <= i <= |messages| && State(exchanges, notifications, pending) == Run(all, i)
    {
      var m := messages[i];
      ghost var before := Run(all, i);
      assert Run(all, i + 1) == Step(before, all[i]) && all[i] == Seen(m, ActOf(m));
      match ActOf(m) {
        case Skip =>
        case Ask(dir, key) =>
          if key.Some? { pending := pending[key.value := |exchanges|]; }
          exchanges := exchanges + [Opened(m, dir)];
        case Reply(dir, key) =>
          if key.Some? && key.value in pending {
            var idx := pending[key.value];
            pending := pending - {key.value};
            exchanges := exchanges[idx := AnsweredBy(exchanges[idx], m)];
          } else {
            exchanges := exchanges + [OrphanOf(m, dir)];
          }
        case Notify(dir, cancels, acknowledges) =>
          if cancels.Some? && cancels.value in pending {
            var idx := pending[cancels.value];
            pending := pending - {cancels.value};
            exchanges := exchanges[idx := exchanges[idx].(status := Cancelled)];
          }
          if acknowledges.Some? && acknowledges.value in pending {
            var idx := pending[acknowledges.value];
            if MaySubscribe(exchanges[idx]) { exchanges := exchanges[idx := exchanges[idx].(status := Subscribed)]; }
          }
          notifications := notifications + [Notified(m, dir)];
      }
      i := i + 1;
    }
    exchanges := Sorted(exchanges, KEY);
    var stats := ComputeStats(exchanges, notifications);
    model := Model(exchanges, notifications, stats);
  }

  // ---------------------------------------------------------------- what the view holds

  predicate Increasing(messages: seq<Seen>) {
    forall i, j :: 0 <= i < j < |messages| ==> messages[i].m.num < messages[j].m.num
  }

  lemma {:induction false} OutcomeKey(messages: seq<Seen>, i: nat, n: nat)
    requires i < n <= |messages| && Starts(messages, i)
    ensures SortKey(Outcome(messages, i, n)) == messages[i].m.num
  {
  }

  lemma {:induction false} OutcomesInOrder(messages: seq<Seen>, n: nat, exchanges: seq<Exchange>)
    requires n <= |messages| && Increasing(messages) && OutcomesMet(messages, n, exchanges)
    ensures InOrder(exchanges, KEY)
  {
    var starters := Starters(messages, n);
    forall x | 0 <= x < |exchanges| ensures SortKey(exchanges[x]) == messages[starters[x]].m.num {
      OutcomeKey(messages, starters[x], n);
    }
  }

  lemma {:induction false} NothingToSort(messages: seq<StoredMessage>)
    requires Increasing(See(messages))
    ensures Correlated(messages) ==
      (Run(See(messages), |messages|).exchanges, Run(See(messages), |messages|).notifications)
  {
    var all := See(messages);
    RunMeets(all, |all|);
    OutcomesInOrder(all, |all|, Run(all, |all|).exchanges);
    SortKeepsOrdered(Run(all, |all|).exchanges, KEY);
  }

  /** On increasing sequence numbers the sort changes nothing: the view is the declared outcomes, in starting order. */
  lemma {:induction false} OrderKept(messages: seq<StoredMessage>)
    requires Increasing(See(messages))
    ensures OutcomesMet(See(messages), |messages|, Correlated(messages).0)
    ensures Correlated(messages).1 == NotificationsIn(See(messages), |messages|)
  {
    var all := See(messages);
    RunMeets(all, |all|);
    NothingToSort(messages);
  }

  /** Request `j` is the last request of the other side with the response's id, with nothing for that id in between. */
  predicate Answers(messages: seq<Seen>, j: nat, i: nat)
    requires i < |messages|
  {
    ReplyKey(messages[i]).Some? && Waits(messages, j, i, ReplyKey(messages[i]).value)
  }

  /** A request's exchange holds a response exactly when that response answers it. */
  lemma {:induction false} AnsweredIff(messages: seq<Seen>, j: nat, i: nat, n: nat)
    requires Increasing(messages) && j < n <= |messages| && i < n && messages[j].act.Ask? && messages[i].act.Reply?
    ensures RequestOutcome(messages, j, n).responseSeq == Some(messages[i].m.num) <==> Answers(messages, j, i)
  {
    var key := RequestKey(messages[j]);
    if key.Some? {
      var end := FirstEnd(messages, key.value, j + 1, n);
      if Answers(messages, j, i) { assert Closes(messages[i], key.value); }
    }
  }

  /** The exchange holds message `i`, as its request or as its response. */
  predicate Holds(messages: seq<Seen>, e: Exchange, i: nat)
    requires i < |messages|
  {
    if messages[i].act.Ask? then e.requestSeq == Some(messages[i].m.num) else e.responseSeq == Some(messages[i].m.num)
  }

  lemma {:induction false} HeldByStarter(messages: seq<Seen>, starter: nat, i: nat)
    requires Increasing(messages) && starter < |messages| && Starts(messages, starter)
    requires i < |messages| && (messages[i].act.Ask? || messages[i].act.Reply?)
    ensures Holds(messages, Outcome(messages, starter, |messages|), i) <==>
      if messages[i].act.Reply? && messages[starter].act.Ask? then Answers(messages, starter, i) else starter == i
  {
    if messages[i].act.Reply? && messages[starter].act.Ask? { AnsweredIff(messages, starter, i, |messages|); }
  }

  lemma {:induction false} OneStarter(messages: seq<Seen>, i: nat, a: nat, b: nat)
    requires Increasing(messages) && a < |messages| && b < |messages| && Starts(messages, a) && Starts(messages, b)
    requires i < |messages| && (messages[i].act.Ask? || messages[i].act.Reply?)
    requires Holds(messages, Outcome(messages, a, |messages|), i)
      && Holds(messages, Outcome(messages, b, |messages|), i)
    ensures a == b
  {
    HeldByStarter(messages, a, i);
    HeldByStarter(messages, b, i);
    if messages[i].act.Reply? && messages[a].act.Ask? && messages[b].act.Ask? {
      WaitsOnce(messages, a, b, i, ReplyKey(messages[i]).value);
    }
  }

  lemma {:induction false} SomeStarter(messages: seq<Seen>, i: nat) returns (starter: nat)
    requires Increasing(messages) && i < |messages| && (messages[i].act.Ask? || messages[i].act.Reply?)
    ensures starter < |messages| && Starts(messages, starter)
      && Holds(messages, Outcome(messages, starter, |messages|), i)
  {
    starter := i;
    if messages[i].act.Reply? && Matched(messages, i) {
      var j: nat :| Waits(messages, j, i, ReplyKey(messages[i]).value);
      starter := j;
    }
    HeldByStarter(messages, starter, i);
  }

  /** Every request and every response of a known direction lands in exactly one exchange. */
  lemma {:induction false} LandsOnce(messages: seq<Seen>, exchanges: seq<Exchange>, i: nat) returns (x: nat)
    requires Increasing(messages) && OutcomesMet(messages, |messages|, exchanges)
    requires i < |messages| && (messages[i].act.Ask? || messages[i].act.Reply?)
    ensures x < |exchanges| && Holds(messages, exchanges[x], i)
    ensures forall y :: 0 <= y < |exchanges| && Holds(messages, exchanges[y], i) ==> y == x
  {
    var starters := Starters(messages, |messages|);
    var starter := SomeStarter(messages, i);
    assert starter in starters;
    x :| 0 <= x < |starters| && starters[x] == starter;
    forall y | 0 <= y < |exchanges| && Holds(messages, exchanges[y], i) ensures y == x {
      OneStarter(messages, i, starters[y], starter);
    }
  }

  // ---------------------------------------------------------------- integrity verdict

  datatype IssueKind = EmptySession | DroppedMessages | NonMonotonicSequence | UnknownDirection | UnknownMessageKind
                     | InvalidPayload | UnansweredRequest | OrphanResponse

  datatype Issue = Issue(kind: IssueKind, num: Option<nat>)

  predicate KnownKind(m: StoredMessage) { m.fields.kind in {"request", "response", "notification"} }

  predicate WellFormed(m: StoredMessage) { m.payload.Some? && KnownKind(m) && FromName(m.direction).Some? }

  function MessageIssues(previous: Option<nat>, m: StoredMessage): seq<Issue> {
    (if previous.Some? && m.num <= previous.value then [Issue(NonMonotonicSequence, Some(m.num))] else [])
    + (if FromName(m.direction).None? then [Issue(UnknownDirection, Some(m.num))] else [])
    + (if !KnownKind(m) then [Issue(UnknownMessageKind, Some(m.num))] else [])
    + (if m.payload.None? then [Issue(InvalidPayload, Some(m.num))] else [])
  }

  function PreviousNum(messages: seq<StoredMessage>, i: nat): Option<nat>
    requires i <= |messages|
  {
    if i == 0 then None else Some(messages[i - 1].num)
  }

  function LogIssues(messages: seq<StoredMessage>, n: nat): seq<Issue>
    requires n <= |messages|
  {
    if n == 0 then [] else LogIssues(messages, n - 1) + MessageIssues(PreviousNum(messages, n - 1), messages[n - 1])
  }

  function ExchangeIssues(exchanges: seq<Exchange>, n: nat): seq<Issue>
    requires n <= |exchanges|
  {
    if n == 0 then [] else
    ExchangeIssues(exchanges, n - 1) +
    match exchanges[n - 1].status
    case Unanswered => [Issue(UnansweredRequest, exchanges[n - 1].requestSeq)]
    case Orphan => [Issue(OrphanResponse, exchanges[n - 1].responseSeq)]
    case _ => []
  }

  /** What `ValidateSession` reports. */
  function Issues(messages: seq<StoredMessage>, dropped: nat): seq<Issue> {
    var exchanges := Correlated(messages).0;
    (if |messages| == 0 then [Issue(EmptySession, None)] else [])
    + (if dropped > 0 then [Issue(DroppedMessages, None)] else [])
    + LogIssues(messages, |messages|) + ExchangeIssues(exchanges, |exchanges|)
  }

  method CheckMessage(previous: Option<nat>, m: StoredMessage, before: seq<Issue>) returns (issues: seq<Issue>)
    ensures issues == before + MessageIssues(previous, m)
  {
    issues := before;
    if previous.Some? && m.num <= previous.value { issues := issues + [Issue(NonMonotonicSequence, Some(m.num))]; }
    if FromName(m.direction).None? { issues := issues + [Issue(UnknownDirection, Some(m.num))]; }
    if !KnownKind(m) { issues := issues + [Issue(UnknownMessageKind, Some(m.num))]; }
    if m.payload.None? { issues := issues + [Issue(InvalidPayload, Some(m.num))]; }
  }

  method CheckMessages(messages: seq<StoredMessage>, before: seq<Issue>) returns (issues: seq<Issue>)
    ensures issues == before + LogIssues(messages, |messages|)
  {
    issues := before;
    var previous: Option<nat> := None;
    for i := 0 to |messages|
      invariant previous == PreviousNum(messages, i) && issues == before + LogIssues(messages, i)
    {
      ghost var found := MessageIssues(previous, messages[i]);
      assert before + LogIssues(messages, i) + found == before + (LogIssues(messages, i) + found);
      issues := CheckMessage(previous, messages[i], issues);
      previous := Some(messages[i].num);
    }
  }

  method CheckExchanges(exchanges: seq<Exchange>, before: seq<Issue>) returns (issues: seq<Issue>)
    ensures issues == before + ExchangeIssues(exchanges, |exchanges|)
  {
    issues := before;
    for x := 0 to |exchanges|
      invariant issues == before + ExchangeIssues(exchanges, x)
    {
      match exchanges[x].status {
        case Unanswered => issues := issues + [Issue(UnansweredRequest, exchanges[x].requestSeq)];
        case Orphan => issues := issues + [Issue(OrphanResponse, exchanges[x].responseSeq)];
        case _ =>
      }
    }
  }

  method ValidateSession(messages: seq<StoredMessage>, dropped: nat) returns (issues: seq<Issue>)
    ensures issues == Issues(messages, dropped)
  {
    issues := [];
    if |messages| == 0 { issues := issues + [Issue(EmptySession, None)]; }
    if dropped > 0 { issues := issues + [Issue(DroppedMessages, None)]; }
    issues := CheckMessages(messages, issues);
    var model := Correlate(messages);
    issues := CheckExchanges(model.exchanges, issues);
  }

  lemma {:induction false} LogIssuesIff(messages: seq<StoredMessage>, n: nat)
    requires n <= |messages|
    ensures LogIssues(messages, n) == [] <==>
      forall i :: 0 <= i < n ==> WellFormed(messages[i]) && (i > 0 ==> messages[i - 1].num < messages[i].num)
  {
    if n > 0 { LogIssuesIff(messages, n - 1); }
  }

  lemma {:induction false} ExchangeIssuesIff(exchanges: seq<Exchange>, n: nat)
    requires n <= |exchanges|
    ensures ExchangeIssues(exchanges, n) == [] <==>
      forall x :: 0 <= x < n ==> exchanges[x].status != Unanswered && exchanges[x].status != Orphan
  {
    if n > 0 { ExchangeIssuesIff(exchanges, n - 1); }
  }

  lemma {:induction false} Chained(messages: seq<StoredMessage>, i: nat, j: nat)
    requires i < j < |messages| && forall k :: 0 < k < |messages| ==> messages[k - 1].num < messages[k].num
    ensures messages[i].num < messages[j].num
  {
    if i < j - 1 { Chained(messages, i, j - 1); }
  }

  /** While request `j` waits, a response or a cancellation ends it, or its subscription is acknowledged. */
  ghost predicate Settled(messages: seq<Seen>, j: nat)
    requires j < |messages| && messages[j].act.Ask?
  {
    var key := RequestKey(messages[j]);
    && key.Some?
    && exists i :: 0 <= i < |messages| && Settles(messages, j, key.value, i)
  }

  predicate Settles(messages: seq<Seen>, j: nat, key: Key, i: nat)
    requires j < |messages| && i < |messages| && messages[j].act.Ask?
  {
    && Waits(messages, j, i, key)
    && (ReplyKey(messages[i]) == Some(key) || CancelKey(messages[i]) == Some(key)
        || (AckKey(messages[i]) == Some(key) && MaySubscribe(Opened(messages[j].m, messages[j].act.from))))
  }

  lemma {:induction false} SettledIff(messages: seq<Seen>, j: nat)
    requires j < |messages| && messages[j].act.Ask?
    ensures RequestOutcome(messages, j, |messages|).status != Unanswered <==> Settled(messages, j)
    ensures RequestOutcome(messages, j, |messages|).status != Orphan
  {
    var key, n := RequestKey(messages[j]), |messages|;
    if key.Some? {
      var end := FirstEnd(messages, key.value, j + 1, n);
      var until := if end.Some? then end.value else n;
      if end.Some? && (ReplyKey(messages[end.value]) == key || CancelKey(messages[end.value]) == key) {
        assert Settles(messages, j, key.value, end.value);
      } else if AckedWithin(messages, key.value, j + 1, until) {
        var a: nat :| j + 1 <= a < until && AckKey(messages[a]) == key;
        assert Waits(messages, j, a, key.value);
        if MaySubscribe(Opened(messages[j].m, messages[j].act.from)) { assert Settles(messages, j, key.value, a); }
      }
      if Settled(messages, j) {
        var i: nat :| 0 <= i < |messages| && Settles(messages, j, key.value, i);
        if Closes(messages[i], key.value) { assert until == i; } else { assert i < until; }
      }
    }
  }

  /** The messages raise no issue exactly when each is well formed and their numbers increase. */
  lemma {:induction false} LogHealthyIff(messages: seq<StoredMessage>, all: seq<Seen>)
    requires |all| == |messages| && forall i :: 0 <= i < |all| ==> all[i].m == messages[i]
    ensures LogIssues(messages, |messages|) == [] <==> Increasing(all) && forall m :: m in messages ==> WellFormed(m)
  {
    LogIssuesIff(messages, |messages|);
    if LogIssues(messages, |messages|) == [] {
      forall i, j | 0 <= i < j < |messages| ensures all[i].m.num < all[j].m.num { Chained(messages, i, j); }
    }
    if Increasing(all) { assert forall i :: 0 < i < |messages| ==> all[i - 1].m.num < all[i].m.num; }
  }

  /** No exchange is left open or orphaned exactly when every request was settled and every response answers a
   *  request. */
  lemma {:induction false} SettledExchanges(messages: seq<Seen>, exchanges: seq<Exchange>)
    requires OutcomesMet(messages, |messages|, exchanges)
    ensures ExchangeIssues(exchanges, |exchanges|) == [] <==> AllSettled(messages)
  {
    var n, starters := |messages|, Starters(messages, |messages|);
    ExchangeIssuesIff(exchanges, |exchanges|);
    forall x | 0 <= x < |exchanges|
      ensures exchanges[x].status != Unanswered && exchanges[x].status != Orphan <==>
        messages[starters[x]].act.Ask? && Settled(messages, starters[x])
    {
      if messages[starters[x]].act.Ask? { SettledIff(messages, starters[x]); }
    }
    if AllSettled(messages) {
      assert forall x :: 0 <= x < |starters| ==> Starts(messages, starters[x]);
    } else {
      var i: nat :| i < n && Starts(messages, i) && !(messages[i].act.Ask? && Settled(messages, i));
      assert i in starters;
    }
  }

  ghost predicate AllSettled(messages: seq<Seen>) {
    && (forall j :: 0 <= j < |messages| && messages[j].act.Ask? ==> Settled(messages, j))
    && (forall i :: 0 <= i < |messages| && messages[i].act.Reply? ==> Matched(messages, i))
  }

  /** A log is healthy exactly when it is non-empty, loss-free, well formed and increasing, every request was settled,
   *  and every response answers a request. */
  lemma {:induction false} HealthyIff(messages: seq<StoredMessage>, dropped: nat)
    ensures Issues(messages, dropped) == [] <==>
      && |messages| > 0 && dropped == 0 && Increasing(See(messages))
      && (forall m :: m in messages ==> WellFormed(m))
      && AllSettled(See(messages))
  {
    LogHealthyIff(messages, See(messages));
    if Increasing(See(messages)) {
      OrderKept(messages);
      SettledExchanges(See(messages), Correlated(messages).0);
    }
  }
}
