/** The single writer of a capture: reordering, redaction in context, chunked writes, and the accounting of every
 *  loss. */
module Writer {
  import opened Json
  import opened Policy
  import opened Redact
  import opened Tracker
  import opened Protocol
  import opened Sorting
  import Walks

  const STORAGE_REORDER_MAX_MESSAGES := 4096
  const STORAGE_WRITE_BATCH_MESSAGES := 128

  /** A captured message, numbered before it was forwarded. */
  datatype Message = Message(num: nat, ts: int, direction: Direction, payload: Json, payloadBytes: nat)

  const NUM: Message -> int := (m: Message) => m.num

  function MaxOf(a: nat, b: nat): nat { if a < b then b else a }

  function MinOf(a: nat, b: nat): nat { if a < b then a else b }

  // ---------------------------------------------------------------- the reorder buffer

  /** Arrivals are kept by number, those with one number in order of arrival. */
  function Admitted(pending: seq<Message>, arrivals: seq<Message>): seq<Message> {
    if |arrivals| == 0 then pending
    else Insert(Admitted(pending, arrivals[..|arrivals| - 1]), arrivals[|arrivals| - 1], NUM)
  }

  predicate Pressed(pending: seq<Message>) { |pending| >= STORAGE_REORDER_MAX_MESSAGES }

  /** The first message is handed out if it is the next one or an older one, or must be: at close, or under pressure. */
  predicate Pops(pending: seq<Message>, next: nat, closing: bool) {
    |pending| > 0 && (pending[0].num <= next || closing || Pressed(pending))
  }

  /** How many messages are handed out. */
  function Popped(pending: seq<Message>, next: nat, closing: bool): (k: nat)
    ensures k <= |pending|
  {
    if Pops(pending, next, closing) then 1 + Popped(pending[1..], MaxOf(next, pending[0].num + 1), closing) else 0
  }

  function NextAfter(pending: seq<Message>, next: nat, k: nat): nat
    requires k <= |pending|
  {
    if k == 0 then next else NextAfter(pending[1..], MaxOf(next, pending[0].num + 1), k - 1)
  }

  /** Pressure pushes a message past a gap. */
  predicate Forced(pending: seq<Message>, next: nat, closing: bool) {
    && Pops(pending, next, closing)
    && ((pending[0].num > next && Pressed(pending)) || Forced(pending[1..], MaxOf(next, pending[0].num + 1), closing))
  }

  // ---------------------------------------------------------------- one round of the loop

  /** `handed` is every message handed out so far, before redaction. */
  datatype Progress = Progress(pending: seq<Message>, next: nat, handed: seq<Message>, store: seq<StoredMessage>,
                               failed: nat, failure: bool, reported: bool)

  const START := Progress([], 0, [], [], 0, false, false)

  /** How the writer treats messages: whether it redacts, what one does to the tracker and in which context it stands,
   *  and the row it becomes there. The bookkeeping below is the same for any of these. */
  datatype Lens = Lens(active: bool, observe: (State, Message) -> (State, Context),
                       row: (Message, Context) -> StoredMessage)

  function RowOf(policy: Policy, m: Message, context: Context): StoredMessage {
    var payload := Redacted(policy, Placeholder, context, m.payload);
    StoredMessage(m.num, m.ts, m.direction.Name(), Derived(payload), Some(payload), m.payloadBytes)
  }

  function LensOf(policy: Policy): Lens {
    Lens(policy.Active(),
         (s: State, m: Message) => Step(AtCapacity(), s, Observed(m.num, m.direction.Name(), m.payload)),
         (m: Message, context: Context) => RowOf(policy, m, context))
  }

  /** The tracker after the messages handed out. */
  function TrackerAfter(lens: Lens, handed: seq<Message>): State {
    if |handed| == 0 then Tracker.INITIAL
    else lens.observe(TrackerAfter(lens, handed[..|handed| - 1]), handed[|handed| - 1]).0
  }

  /** The rows they become, each in the context of those before it. */
  function Rows(lens: Lens, handed: seq<Message>): (rows: seq<StoredMessage>)
    ensures |rows| == |handed|
  {
    if |handed| == 0 then [] else
    var init, last := handed[..|handed| - 1], handed[|handed| - 1];
    Rows(lens, init) + [lens.row(last, lens.observe(TrackerAfter(lens, init), last).1)]
  }

  predicate Lost(lens: Lens, handed: seq<Message>) { TrackerAfter(lens, handed).lostContext }

  /** A loss of context counts as one failed record, once. */
  function Report(s: Progress, loss: bool): Progress {
    if loss && !s.reported then s.(failed := s.failed + 1, failure := true, reported := true) else s
  }

  /** Chunk `c` and those after it, each written as one transaction that succeeds or not. */
  function Stored(s: Progress, rows: seq<StoredMessage>, writes: nat -> bool, c: nat): Progress
    decreases |rows|
  {
    if |rows| == 0 then s else
    var n := MinOf(|rows|, STORAGE_WRITE_BATCH_MESSAGES);
    Stored(if writes(c) then s.(store := s.store + rows[..n])
      else s.(failed := s.failed + n, failure := true), rows[n..], writes, c + 1)
  }

  function Drained(s: Progress, arrivals: seq<Message>, closing: bool): (Progress, seq<Message>) {
    var pending := Admitted(s.pending, arrivals);
    var k := Popped(pending, s.next, closing);
    (Report(s.(pending := pending[k..], next := NextAfter(pending, s.next, k)), Forced(pending, s.next, closing)),
     pending[..k])
  }

  /** After the tracker has seen the messages just handed out. */
  function Noted(lens: Lens, s: Progress, count: nat): Progress {
    Report(s, lens.active && count > 0 && Lost(lens, s.handed))
  }

  /** The messages are handed out: redacted in context, and written. */
  function HandedOut(lens: Lens, s: Progress, out: seq<Message>, writes: nat -> bool): Progress {
    var noted := Noted(lens, s.(handed := s.handed + out), |out|);
    Stored(noted, Rows(lens, noted.handed)[|s.handed|..], writes, 0)
  }

  function Round(lens: Lens, s: Progress, arrivals: seq<Message>, closing: bool, writes: nat -> bool): Progress {
    var (drained, out) := Drained(s, arrivals, closing);
    HandedOut(lens, drained, out, writes)
  }

  lemma {:induction false} HandOne(lens: Lens, handed: seq<Message>, m: Message)
    ensures var step := lens.observe(TrackerAfter(lens, handed), m);
      TrackerAfter(lens, handed + [m]) == step.0
        && Rows(lens, handed + [m]) == Rows(lens, handed) + [lens.row(m, step.1)]
  {
    assert (handed + [m])[..|handed|] == handed;
  }

  /** A loss of context is for good. */
  ghost predicate KeepsLoss(lens: Lens) {
    forall s: State, m: Message :: s.lostContext ==> lens.observe(s, m).0.lostContext
  }

  lemma {:induction false} LensKeepsLoss(policy: Policy)
    ensures KeepsLoss(LensOf(policy))
  {
    forall s: State, m: Message | s.lostContext ensures LensOf(policy).observe(s, m).0.lostContext {
      StepLost(AtCapacity(), s, Observed(m.num, m.direction.Name(), m.payload));
    }
  }

  lemma {:induction false} LostNext(policy: Policy, handed: seq<Message>, m: Message)
    ensures Lost(LensOf(policy), handed) ==> Lost(LensOf(policy), handed + [m])
  {
    LensKeepsLoss(policy);
    HandOne(LensOf(policy), handed, m);
  }

  /** The first `j` messages to be handed out from state `t` are, with these rows, in state `s`. */
  ghost predicate RedactedSoFar(lens: Lens, t: Progress, out: seq<Message>, j: nat, s: Progress,
                                rows: seq<StoredMessage>)
    requires j <= |out|
  {
    && s == Noted(lens, t.(handed := t.handed + out[..j]), j)
    && Rows(lens, s.handed) == Rows(lens, t.handed) + rows
  }

  lemma {:induction false} NothingRedacted(lens: Lens, t: Progress, out: seq<Message>)
    ensures RedactedSoFar(lens, t, out, 0, t, [])
  {
    assert t.handed + out[..0] == t.handed;
  }

  lemma {:induction false} AppendNext<T>(a: seq<T>, b: seq<T>, j: nat)
    requires j < |b|
    ensures a + b[..j] + [b[j]] == a + b[..j + 1]
  {
  }

  lemma {:induction false} AppendAssoc<T>(a: seq<T>, b: seq<T>, x: T)
    ensures a + b + [x] == a + (b + [x])
  {
  }

  lemma {:induction false} ReportNext(t: Progress, before: seq<Message>, after: seq<Message>, lossBefore: bool,
                                      lossAfter: bool)
    requires lossBefore ==> lossAfter
    ensures Report(Report(t.(handed := before), lossBefore).(handed := after), lossAfter) ==
      Report(t.(handed := after), lossAfter)
  {
  }

  lemma {:induction false} RedactedNext(lens: Lens, t: Progress, out: seq<Message>, j: nat, s: Progress, u: Progress,
                                        rows: seq<StoredMessage>, row: StoredMessage)
    requires j < |out| && RedactedSoFar(lens, t, out, j, s, rows)
    requires Lost(lens, s.handed) ==> Lost(lens, s.handed + [out[j]])
    requires u == Report(s.(handed := s.handed + [out[j]]), lens.active && Lost(lens, s.handed + [out[j]]))
    requires Rows(lens, u.handed) == Rows(lens, s.handed) + [row]
    ensures RedactedSoFar(lens, t, out, j + 1, u, rows + [row])
  {
    AppendNext(t.handed, out, j);
    AppendAssoc(Rows(lens, t.handed), rows, row);
    ReportNext(t, t.handed + out[..j], t.handed + out[..j + 1], lens.active && j > 0 && Lost(lens, s.handed),
               lens.active && Lost(lens, s.handed + [out[j]]));
  }

  /** The drain loop over the buffer. */
  method DrainBuffer(pending: seq<Message>, next: nat, closing: bool)
    returns (out: seq<Message>, rest: seq<Message>, nextAfter: nat, forced: bool)
    ensures |out| == Popped(pending, next, closing) && out + rest == pending
    ensures nextAfter == NextAfter(pending, next, |out|) && forced == Forced(pending, next, closing)
  {
    out, rest, nextAfter, forced := [], pending, next, false;
    ghost var k := Popped(pending, next, closing);
    while Pops(rest, nextAfter, closing)
      invariant out + rest == pending && k == |out| + Popped(rest, nextAfter, closing)
      invariant NextAfter(pending, next, k) == NextAfter(rest, nextAfter, k - |out|)
      invariant Forced(pending, next, closing) <==> forced || Forced(rest, nextAfter, closing)
      decreases |rest|
    {
      forced := forced || (rest[0].num > nextAfter && Pressed(rest));
      out, nextAfter, rest := out + [rest[0]], MaxOf(nextAfter, rest[0].num + 1), rest[1..];
    }
  }

  method AdmitAll(pending: seq<Message>, arrivals: seq<Message>) returns (all: seq<Message>)
    ensures all == Admitted(pending, arrivals)
  {
    all := pending;
    for i := 0 to |arrivals|
      invariant all == Admitted(pending, arrivals[..i])
    {
      all := Insert(all, arrivals[i], NUM);
      assert arrivals[..i + 1][..i] == arrivals[..i];
    }
    assert arrivals[..|arrivals|] == arrivals;
  }

  // ---------------------------------------------------------------- the writer

  class StorageWriter {
    const policy: Policy
    const tracker: RedactionContextTracker
    var pending: seq<Message>
    var nextSeq: nat
    var store: seq<StoredMessage>
    var failedRecords: nat
    var failure: bool
    var lossReported: bool
    ghost var handed: seq<Message>

    ghost function Now(): Progress
      reads this
    {
      Progress(pending, nextSeq, handed, store, failedRecords, failure, lossReported)
    }

    ghost predicate Valid()
      reads this, tracker
    {
      tracker.Current() == TrackerAfter(LensOf(policy), handed)
    }

    constructor (policy: Policy)
      ensures Valid() && fresh(tracker) && Now() == START && this.policy == policy
    {
      this.policy := policy;
      tracker := new RedactionContextTracker();
      pending, nextSeq, store, failedRecords, failure, lossReported, handed := [], 0, [], 0, false, false, [];
    }

    /** One turn of the loop: admit a batch, drain the buffer, redact in context, write in chunks. */
    method HandleRound(arrivals: seq<Message>, closing: bool, writes: nat -> bool)
      requires Valid()
      modifies this, tracker
      ensures Valid() && Now() == Round(LensOf(policy), old(Now()), arrivals, closing, writes)
    {
      var out := Drain(arrivals, closing);
      HandOut(out, writes);
    }

    method HandOut(out: seq<Message>, writes: nat -> bool)
      requires Valid()
      modifies this, tracker
      ensures Valid() && Now() == HandedOut(LensOf(policy), old(Now()), out, writes)
    {
      var rows := RedactInContext(out);
      assert Rows(LensOf(policy), handed)[|old(handed)|..] == rows;
      assert old(handed) + out[..|out|] == old(handed) + out;
      Write(rows, writes);
    }

    method Drain(arrivals: seq<Message>, closing: bool) returns (out: seq<Message>)
      modifies this
      ensures (Now(), out) == Drained(old(Now()), arrivals, closing) && handed == old(handed)
    {
      var all := AdmitAll(pending, arrivals);
      var forced;
      out, pending, nextSeq, forced := DrainBuffer(all, nextSeq, closing);
      assert all[..|out|] == out && all[|out|..] == pending;
      ReportLoss(forced);
    }

    method ReportLoss(loss: bool)
      modifies this
      ensures Now() == Report(old(Now()), loss)
    {
      if loss && !lossReported {
        failedRecords := failedRecords + 1;
        failure, lossReported := true, true;
      }
    }

    method RedactInContext(out: seq<Message>) returns (rows: seq<StoredMessage>)
      requires Valid()
      modifies this, tracker
      ensures Valid() && RedactedSoFar(LensOf(policy), old(Now()), out, |out|, Now(), rows)
    {
      rows := [];
      NothingRedacted(LensOf(policy), Now(), out);
      for j := 0 to |out|
        invariant Valid() && RedactedSoFar(LensOf(policy), old(Now()), out, j, Now(), rows)
      {
        ghost var before := Now();
        var row := RedactOne(out[j]);
        LostNext(policy, before.handed, out[j]);
        RedactedNext(LensOf(policy), old(Now()), out, j, before, Now(), rows, row);
        rows := rows + [row];
      }
      assert out[..|out|] == out;
    }

    method RedactOne(m: Message) returns (row: StoredMessage)
      requires Valid()
      modifies this, tracker
      ensures Valid() && handed == old(handed) + [m]
      ensures Rows(LensOf(policy), handed) == Rows(LensOf(policy), old(handed)) + [row]
      ensures Now() == Report(old(Now()).(handed := handed), policy.Active() && Lost(LensOf(policy), handed))
    {
      HandOne(LensOf(policy), handed, m);
      var context := tracker.Observe(m.num, m.direction.Name(), m.payload);
      handed := handed + [m];
      ReportLoss(policy.Active() && tracker.lostContext);
      var payload := Walks.RedactWithContext(policy, Placeholder, context, m.payload);
      row := StoredMessage(m.num, m.ts, m.direction.Name(), Derived(payload), Some(payload), m.payloadBytes);
    }

    method Write(rows: seq<StoredMessage>, writes: nat -> bool)
      modifies this
      ensures Now() == Stored(old(Now()), rows, writes, 0) && handed == old(handed)
    {
      var rest, c := rows, 0;
      while |rest| > 0
        invariant Stored(Now(), rest, writes, c) == Stored(old(Now()), rows, writes, 0) && handed == old(handed)
        decreases |rest|
      {
        var n := MinOf(|rest|, STORAGE_WRITE_BATCH_MESSAGES);
        if writes(c) {
          store := store + rest[..n];
        } else {
          failedRecords := failedRecords + n;
          failure := true;
        }
        rest, c := rest[n..], c + 1;
      }
    }

    /** The last round, the final accounting, and the verdict; `counted` and `closed` say whether the store took the two
     *  updates. */
    method Close(arrivals: seq<Message>, writes: nat -> bool, dropped: nat, counted: bool, closed: bool)
      returns (ok: bool, drops: nat)
      requires Valid()
      modifies this, tracker
      ensures var s := Round(LensOf(policy), old(Now()), arrivals, true, writes);
        Now().(failure := s.failure) == s && (ok, drops) == Verdict(s, dropped, counted, closed)
    {
      HandleRound(arrivals, true, writes);
      ok, drops := Settle(dropped, counted, closed);
    }

    method Settle(dropped: nat, counted: bool, closed: bool) returns (ok: bool, drops: nat)
      requires Valid()
      modifies this`failure
      ensures Valid() && Now().(failure := old(failure)) == old(Now())
      ensures (ok, drops) == Verdict(old(Now()), dropped, counted, closed)
    {
      var total := dropped + failedRecords;
      drops := 0;
      if total > 0 {
        if counted { drops := total; }
        failure := true;
      }
      if !closed { failure := true; }
      ok := !failure;
    }
  }

  /** Whether the capture ends well, and the drops recorded for the session. */
  function Verdict(s: Progress, dropped: nat, counted: bool, closed: bool): (bool, nat) {
    var total := dropped + s.failed;
    (!s.failure && total == 0 && closed, if total > 0 && counted then total else 0)
  }

  // ---------------------------------------------------------------- whole captures

  datatype Batch = Batch(arrivals: seq<Message>, writes: nat -> bool)

  /** The writer after `n` rounds, in whatever order and grouping the messages arrived. */
  function After(lens: Lens, rounds: seq<Batch>, n: nat): Progress
    requires n <= |rounds|
  {
    if n == 0 then START
      else Round(lens, After(lens, rounds, n - 1), rounds[n - 1].arrivals, false, rounds[n - 1].writes)
  }

  function AtClose(lens: Lens, rounds: seq<Batch>, last: Batch): Progress {
    Round(lens, After(lens, rounds, |rounds|), last.arrivals, true, last.writes)
  }

  function Arrived(rounds: seq<Batch>, n: nat): seq<Message>
    requires n <= |rounds|
  {
    if n == 0 then [] else Arrived(rounds, n - 1) + rounds[n - 1].arrivals
  }

  // ---------------------------------------------------------------- nothing lost, nothing twice

  lemma {:induction false} AdmittedMultiset(pending: seq<Message>, arrivals: seq<Message>)
    ensures multiset(Admitted(pending, arrivals)) == multiset(pending) + multiset(arrivals)
  {
    if |arrivals| > 0 {
      var init, last := arrivals[..|arrivals| - 1], arrivals[|arrivals| - 1];
      AdmittedMultiset(pending, init);
      InsertMultiset(Admitted(pending, init), last, NUM);
      LastArrival(multiset(pending), arrivals);
    }
  }

  lemma {:induction false} LastArrival(pending: multiset<Message>, arrivals: seq<Message>)
    requires |arrivals| > 0
    ensures pending + multiset(arrivals) ==
      pending + multiset(arrivals[..|arrivals| - 1]) + multiset{arrivals[|arrivals| - 1]}
  {
    assert arrivals == arrivals[..|arrivals| - 1] + [arrivals[|arrivals| - 1]];
  }

  lemma {:induction false} StoredFacts(s: Progress, rows: seq<StoredMessage>, writes: nat -> bool, c: nat)
    ensures var t := Stored(s, rows, writes, c);
      && t == s.(store := t.store, failed := t.failed, failure := t.failure)
      && t.failed + |t.store| == s.failed + |s.store| + |rows| && t.failed >= s.failed
      && (t.failure <==> s.failure || t.failed > s.failed)
      && (t.failed == s.failed ==> t.store == s.store + rows)
    decreases |rows|
  {
    if |rows| > 0 {
      var n := MinOf(|rows|, STORAGE_WRITE_BATCH_MESSAGES);
      var u := if writes(c) then s.(store := s.store + rows[..n]) else s.(failed := s.failed + n, failure := true);
      StoredFacts(u, rows[n..], writes, c + 1);
      assert rows == rows[..n] + rows[n..];
      if writes(c) { assert s.store + rows[..n] + rows[n..] == s.store + (rows[..n] + rows[n..]); }
    }
  }

  lemma {:induction false} RowsPrefix(lens: Lens, handed: seq<Message>, out: seq<Message>)
    ensures Rows(lens, handed) == Rows(lens, handed + out)[..|handed|]
  {
    if |out| == 0 {
      assert handed + out == handed;
    } else {
      var init, last := out[..|out| - 1], out[|out| - 1];
      RowsPrefix(lens, handed, init);
      HandOne(lens, handed + init, last);
      assert handed + out == handed + init + [last];
    }
  }

  /** What one round does to the buffer and to the books. */
  lemma {:induction false} RoundFacts(lens: Lens, s: Progress, arrivals: seq<Message>, closing: bool,
                                      writes: nat -> bool)
    ensures var pending, t := Admitted(s.pending, arrivals), Round(lens, s, arrivals, closing, writes);
      var k := Popped(pending, s.next, closing);
      var loss := !s.reported && t.reported;
      && t.pending == pending[k..] && t.next == NextAfter(pending, s.next, k) && t.handed == s.handed + pending[..k]
      && (t.reported <==>
            s.reported || Forced(pending, s.next, closing) || (lens.active && k > 0 && Lost(lens, t.handed)))
      && t.failed + |t.store| == s.failed + |s.store| + k + (if loss then 1 else 0) && t.failed >= s.failed
      && (t.failure <==> s.failure || t.failed > s.failed)
      && (t.failed == s.failed ==> t.store == s.store + Rows(lens, t.handed)[|s.handed|..])
  {
    var (drained, out) := Drained(s, arrivals, closing);
    var noted := Noted(lens, drained.(handed := drained.handed + out), |out|);
    StoredFacts(noted, Rows(lens, noted.handed)[|drained.handed|..], writes, 0);
  }

  /** The books balance: every message handed out is in the store or counted as failed, and a loss of context counts
   *  once more; without a failure the store holds exactly the rows of the messages handed out. */
  ghost predicate Balanced(lens: Lens, s: Progress) {
    && s.failed + |s.store| == |s.handed| + (if s.reported then 1 else 0)
    && (s.failure <==> s.failed > 0)
    && (!s.failure ==> s.store == Rows(lens, s.handed))
  }

  lemma {:induction false} RoundBalances(lens: Lens, s: Progress, arrivals: seq<Message>, closing: bool,
                                         writes: nat -> bool)
    requires Balanced(lens, s)
    ensures Balanced(lens, Round(lens, s, arrivals, closing, writes))
  {
    RoundFacts(lens, s, arrivals, closing, writes);
    var pending := Admitted(s.pending, arrivals);
    var k := Popped(pending, s.next, closing);
    RowsPrefix(lens, s.handed, pending[..k]);
  }

  lemma {:induction false} AlwaysBalanced(lens: Lens, rounds: seq<Batch>, n: nat)
    requires n <= |rounds|
    ensures Balanced(lens, After(lens, rounds, n))
  {
    if n > 0 {
      AlwaysBalanced(lens, rounds, n - 1);
      RoundBalances(lens, After(lens, rounds, n - 1), rounds[n - 1].arrivals, false, rounds[n - 1].writes);
    }
  }

  lemma {:induction false} TakeMultiset<T>(a: seq<T>, b: seq<T>, k: nat)
    requires k <= |b|
    ensures multiset(a + b[..k]) + multiset(b[k..]) == multiset(a) + multiset(b)
  {
    assert b == b[..k] + b[k..];
  }

  lemma {:induction false} RoundConserves(lens: Lens, s: Progress, arrivals: seq<Message>, closing: bool,
                                          writes: nat -> bool)
    ensures var t := Round(lens, s, arrivals, closing, writes);
      multiset(t.handed) + multiset(t.pending) == multiset(s.handed) + multiset(s.pending) + multiset(arrivals)
  {
    RoundFacts(lens, s, arrivals, closing, writes);
    AdmittedMultiset(s.pending, arrivals);
    var pending := Admitted(s.pending, arrivals);
    TakeMultiset(s.handed, pending, Popped(pending, s.next, closing));
  }

  /** Until the close, every admitted message is either handed out or waiting, exactly once. */
  lemma {:induction false} Conserved(lens: Lens, rounds: seq<Batch>, n: nat)
    requires n <= |rounds|
    ensures var s := After(lens, rounds, n); multiset(s.handed) + multiset(s.pending) == multiset(Arrived(rounds, n))
  {
    if n > 0 {
      Conserved(lens, rounds, n - 1);
      RoundConserves(lens, After(lens, rounds, n - 1), rounds[n - 1].arrivals, false, rounds[n - 1].writes);
    }
  }

  lemma {:induction false} ClosingPopsAll(pending: seq<Message>, next: nat)
    ensures Popped(pending, next, true) == |pending|
  {
    if |pending| > 0 { ClosingPopsAll(pending[1..], MaxOf(next, pending[0].num + 1)); }
  }

  /** At the close every admitted message has been handed out exactly once, whatever the order of arrival. */
  lemma {:induction false} AllHandedOnce(lens: Lens, rounds: seq<Batch>, last: Batch)
    ensures var s := AtClose(lens, rounds, last);
      s.pending == [] && multiset(s.handed) == multiset(Arrived(rounds, |rounds|) + last.arrivals)
  {
    var before := After(lens, rounds, |rounds|);
    Conserved(lens, rounds, |rounds|);
    RoundConserves(lens, before, last.arrivals, true, last.writes);
    RoundFacts(lens, before, last.arrivals, true, last.writes);
    ClosingPopsAll(Admitted(before.pending, last.arrivals), before.next);
  }

  // ---------------------------------------------------------------- in sequence

  predicate Strict(s: seq<Message>) { forall i, j :: 0 <= i < j < |s| ==> s[i].num < s[j].num }

  predicate DistinctNums(s: seq<Message>) { forall i, j :: 0 <= i < j < |s| ==> s[i].num != s[j].num }

  lemma {:induction false} InsertStrict(s: seq<Message>, e: Message)
    requires Strict(s) && forall m :: m in s ==> m.num != e.num
    ensures Strict(Insert(s, e, NUM))
  {
    InsertMultiset(s, e, NUM);
    if |s| == 0 || s[|s| - 1].num <= e.num {
      assert |s| > 0 ==> s[|s| - 1] in s;
    } else {
      var init, last := s[..|s| - 1], s[|s| - 1];
      InsertStrict(init, e);
      forall i | 0 <= i < |Insert(init, e, NUM)| ensures Insert(init, e, NUM)[i].num < last.num {
        InsertHas(init, e, NUM, Insert(init, e, NUM)[i]);
      }
    }
  }

  lemma {:induction false} AdmittedHas(pending: seq<Message>, arrivals: seq<Message>, x: Message)
    ensures x in Admitted(pending, arrivals) <==> x in pending || x in arrivals
  {
    AdmittedMultiset(pending, arrivals);
    assert x in Admitted(pending, arrivals) <==> x in multiset(Admitted(pending, arrivals));
  }

  lemma {:induction false} AdmittedStrict(pending: seq<Message>, arrivals: seq<Message>)
    requires Strict(pending) && DistinctNums(arrivals)
    requires forall p, a :: p in pending && a in arrivals ==> p.num != a.num
    ensures Strict(Admitted(pending, arrivals))
  {
    if |arrivals| > 0 {
      var init, last := arrivals[..|arrivals| - 1], arrivals[|arrivals| - 1];
      AdmittedStrict(pending, init);
      forall m | m in Admitted(pending, init) ensures m.num != last.num { AdmittedHas(pending, init, m); }
      InsertStrict(Admitted(pending, init), last);
    }
  }

  /** Unless pressure forces it past a gap, the buffer hands out consecutive numbers only. */
  lemma {:induction false} DrainInSequence(pending: seq<Message>, next: nat)
    requires Strict(pending) && (forall m :: m in pending ==> m.num >= next) && !Forced(pending, next, false)
    ensures var k := Popped(pending, next, false);
      && (forall i :: 0 <= i < k ==> pending[i].num == next + i)
      && (forall i :: k <= i < |pending| ==> pending[i].num >= next + k)
      && NextAfter(pending, next, k) == next + k
  {
    if Pops(pending, next, false) {
      assert pending[0] in pending;
      DrainInSequence(pending[1..], next + 1);
      var k := Popped(pending[1..], next + 1, false);
      forall i | 0 <= i < k + 1 ensures pending[i].num == next + i {
        if i > 0 { assert pending[1..][i - 1].num == next + 1 + (i - 1); }
      }
      forall i | k + 1 <= i < |pending| ensures pending[i].num >= next + (k + 1) {
        assert pending[1..][i - 1].num >= next + 1 + k;
      }
    }
  }

  /** Handed out so far: exactly the numbers below the next one, in order. */
  predicate InSequence(s: Progress) {
    && |s.handed| == s.next && (forall i :: 0 <= i < s.next ==> s.handed[i].num == i)
    && Strict(s.pending) && (forall m :: m in s.pending ==> m.num >= s.next)
  }

  /** New numbers: not handed out, not waiting, and distinct. */
  predicate FreshNums(s: Progress, arrivals: seq<Message>) {
    && DistinctNums(arrivals)
    && (forall p, a :: p in s.pending && a in arrivals ==> p.num != a.num)
    && (forall a :: a in arrivals ==> a.num >= s.next)
  }

  lemma {:induction false} SequenceGrows(s: Progress, t: Progress, pending: seq<Message>, k: nat)
    requires InSequence(s) && Strict(pending) && k <= |pending|
    requires forall i :: 0 <= i < k ==> pending[i].num == s.next + i
    requires forall i :: k <= i < |pending| ==> pending[i].num >= s.next + k
    requires t.handed == s.handed + pending[..k] && t.pending == pending[k..] && t.next == s.next + k
    ensures InSequence(t)
  {
  }

  lemma {:induction false} RoundInSequence(lens: Lens, s: Progress, arrivals: seq<Message>, writes: nat -> bool)
    requires InSequence(s) && FreshNums(s, arrivals) && !Forced(Admitted(s.pending, arrivals), s.next, false)
    ensures InSequence(Round(lens, s, arrivals, false, writes))
  {
    var pending, t := Admitted(s.pending, arrivals), Round(lens, s, arrivals, false, writes);
    RoundFacts(lens, s, arrivals, false, writes);
    AdmittedStrict(s.pending, arrivals);
    forall m | m in pending ensures m.num >= s.next { AdmittedHas(s.pending, arrivals, m); }
    DrainInSequence(pending, s.next);
    SequenceGrows(s, t, pending, Popped(pending, s.next, false));
  }

  predicate ForcedAt(lens: Lens, rounds: seq<Batch>, i: nat)
    requires i < |rounds|
  {
    var s := After(lens, rounds, i);
    Forced(Admitted(s.pending, rounds[i].arrivals), s.next, false)
  }

  lemma {:induction false} DistinctParts(a: seq<Message>, b: seq<Message>)
    requires DistinctNums(a + b)
    ensures DistinctNums(a) && DistinctNums(b) && forall x, y :: x in a && y in b ==> x.num != y.num
  {
    forall i, j | 0 <= i < j < |a| ensures a[i].num != a[j].num { assert (a + b)[i].num != (a + b)[j].num; }
    forall i, j | 0 <= i < j < |b| ensures b[i].num != b[j].num { assert (a + b)[|a| + i].num != (a + b)[|a| + j].num; }
    forall x, y | x in a && y in b ensures x.num != y.num {
      var i :| 0 <= i < |a| && a[i] == x;
      var j :| 0 <= j < |b| && b[j] == y;
      assert (a + b)[i].num != (a + b)[|a| + j].num;
    }
  }

  /** Every message handed out or waiting has arrived. */
  lemma {:induction false} KnownArrived(lens: Lens, rounds: seq<Batch>, n: nat, m: Message)
    requires n <= |rounds| && (m in After(lens, rounds, n).handed || m in After(lens, rounds, n).pending)
    ensures m in Arrived(rounds, n)
  {
    var s := After(lens, rounds, n);
    Conserved(lens, rounds, n);
    assert m in multiset(s.handed) + multiset(s.pending);
    assert m in multiset(Arrived(rounds, n));
  }

  lemma {:induction false} HandedBelow(s: Progress, num: nat)
    requires InSequence(s)
    ensures num < s.next ==> exists m :: m in s.handed && m.num == num
  {
    if num < s.next { assert s.handed[num] in s.handed; }
  }

  lemma {:induction false} ArrivalsFresh(lens: Lens, rounds: seq<Batch>, n: nat, arrivals: seq<Message>)
    requires n <= |rounds| && InSequence(After(lens, rounds, n)) && DistinctNums(Arrived(rounds, n) + arrivals)
    ensures FreshNums(After(lens, rounds, n), arrivals)
  {
    var s := After(lens, rounds, n);
    DistinctParts(Arrived(rounds, n), arrivals);
    forall p | p in s.handed || p in s.pending ensures p in Arrived(rounds, n) { KnownArrived(lens, rounds, n, p); }
    forall a | a in arrivals ensures a.num >= s.next { HandedBelow(s, a.num); }
  }

  /** While no round was forced, what was handed out is 0, 1, 2, ... without a gap, in whatever order it arrived. */
  lemma {:induction false} UnforcedInSequence(lens: Lens, rounds: seq<Batch>, n: nat)
    requires n <= |rounds| && DistinctNums(Arrived(rounds, n)) && forall i :: 0 <= i < n ==> !ForcedAt(lens, rounds, i)
    ensures InSequence(After(lens, rounds, n))
  {
    if n > 0 {
      DistinctParts(Arrived(rounds, n - 1), rounds[n - 1].arrivals);
      UnforcedInSequence(lens, rounds, n - 1);
      ArrivalsFresh(lens, rounds, n - 1, rounds[n - 1].arrivals);
      assert !ForcedAt(lens, rounds, n - 1);
      RoundInSequence(lens, After(lens, rounds, n - 1), rounds[n - 1].arrivals, rounds[n - 1].writes);
    }
  }

  lemma {:induction false} ForcedOnlyPressed(pending: seq<Message>, next: nat, closing: bool)
    requires Forced(pending, next, closing)
    ensures Pressed(pending)
  {
    if !(pending[0].num > next && Pressed(pending)) {
      ForcedOnlyPressed(pending[1..], MaxOf(next, pending[0].num + 1), closing);
    }
  }

  /** While the buffer is never under pressure, the numbers handed out before the close are exactly 0, 1, 2, ... */
  lemma {:induction false} UnpressedInSequence(lens: Lens, rounds: seq<Batch>, n: nat)
    requires n <= |rounds| && DistinctNums(Arrived(rounds, n))
    requires forall i :: 0 <= i < n ==>
      |After(lens, rounds, i).pending| + |rounds[i].arrivals| < STORAGE_REORDER_MAX_MESSAGES
    ensures var s := After(lens, rounds, n);
      |s.handed| == s.next && forall i :: 0 <= i < s.next ==> s.handed[i].num == i
  {
    forall i | 0 <= i < n ensures !ForcedAt(lens, rounds, i) {
      var s := After(lens, rounds, i);
      AdmittedCount(s.pending, rounds[i].arrivals);
      if ForcedAt(lens, rounds, i) { ForcedOnlyPressed(Admitted(s.pending, rounds[i].arrivals), s.next, false); }
    }
    UnforcedInSequence(lens, rounds, n);
  }

  lemma {:induction false} AdmittedCount(pending: seq<Message>, arrivals: seq<Message>)
    ensures |Admitted(pending, arrivals)| == |pending| + |arrivals|
  {
    AdmittedMultiset(pending, arrivals);
    assert |multiset(Admitted(pending, arrivals))| == |pending| + |arrivals|;
  }

  // ---------------------------------------------------------------- a capture that ends well

  /** While no loss was reported, the tracker of a redacting writer has lost nothing. */
  predicate Unlost(lens: Lens, s: Progress) { !s.reported && lens.active ==> !Lost(lens, s.handed) }

  lemma {:induction false} RoundUnlost(lens: Lens, s: Progress, arrivals: seq<Message>, closing: bool,
                                       writes: nat -> bool)
    requires Unlost(lens, s)
    ensures var t := Round(lens, s, arrivals, closing, writes);
      Unlost(lens, t) && (!t.reported ==> !s.reported && !Forced(Admitted(s.pending, arrivals), s.next, closing))
  {
    RoundFacts(lens, s, arrivals, closing, writes);
    var pending := Admitted(s.pending, arrivals);
    if Popped(pending, s.next, closing) == 0 { assert s.handed + pending[..0] == s.handed; }
  }

  lemma {:induction false} RoundUnforced(lens: Lens, rounds: seq<Batch>, n: nat)
    requires n < |rounds| && Unlost(lens, After(lens, rounds, n))
    ensures var s, t := After(lens, rounds, n), After(lens, rounds, n + 1);
      Unlost(lens, t) && (!t.reported ==> !s.reported && !ForcedAt(lens, rounds, n))
  {
    RoundUnlost(lens, After(lens, rounds, n), rounds[n].arrivals, false, rounds[n].writes);
  }

  lemma {:induction false} NeverForced(lens: Lens, rounds: seq<Batch>, n: nat)
    requires n <= |rounds|
    ensures Unlost(lens, After(lens, rounds, n))
    ensures !After(lens, rounds, n).reported ==> forall i :: 0 <= i < n ==> !ForcedAt(lens, rounds, i)
  {
    if n > 0 {
      var m := n - 1;
      NeverForced(lens, rounds, m);
      RoundUnforced(lens, rounds, m);
      if !After(lens, rounds, n).reported {
        forall i | 0 <= i < n ensures !ForcedAt(lens, rounds, i) {
          if i == m { assert !ForcedAt(lens, rounds, m); }
        }
      }
    }
  }

  lemma {:induction false} StrictClose(s: Progress, pending: seq<Message>)
    requires InSequence(s) && Strict(pending) && forall m :: m in pending ==> m.num >= s.next
    ensures Strict(s.handed + pending)
  {
    var all := s.handed + pending;
    forall i, j | 0 <= i < j < |all| ensures all[i].num < all[j].num {
      if j >= |s.handed| { assert pending[j - |s.handed|] in pending; }
    }
  }

  lemma {:induction false} CloseStrict(lens: Lens, rounds: seq<Batch>, last: Batch)
    requires DistinctNums(Arrived(rounds, |rounds|) + last.arrivals) && !AtClose(lens, rounds, last).reported
    ensures Strict(AtClose(lens, rounds, last).handed)
  {
    var before := After(lens, rounds, |rounds|);
    NeverForced(lens, rounds, |rounds|);
    RoundUnlost(lens, before, last.arrivals, true, last.writes);
    DistinctParts(Arrived(rounds, |rounds|), last.arrivals);
    UnforcedInSequence(lens, rounds, |rounds|);
    ArrivalsFresh(lens, rounds, |rounds|, last.arrivals);
    var pending := Admitted(before.pending, last.arrivals);
    AdmittedStrict(before.pending, last.arrivals);
    forall m | m in pending ensures m.num >= before.next { AdmittedHas(before.pending, last.arrivals, m); }
    RoundFacts(lens, before, last.arrivals, true, last.writes);
    ClosingPopsAll(pending, before.next);
    StrictClose(before, pending);
    assert pending[..|pending|] == pending;
  }

  lemma {:induction false} CloseBalanced(lens: Lens, rounds: seq<Batch>, last: Batch)
    ensures Balanced(lens, AtClose(lens, rounds, last))
  {
    AlwaysBalanced(lens, rounds, |rounds|);
    RoundBalances(lens, After(lens, rounds, |rounds|), last.arrivals, true, last.writes);
  }

  /** A capture that ends well has dropped nothing, and its store holds every admitted message exactly once, in
   *  ascending order of number, each redacted in a context that was never lost. */
  lemma {:induction false} OkHoldsAll(lens: Lens, rounds: seq<Batch>, last: Batch, dropped: nat, counted: bool,
                                      closed: bool)
    requires DistinctNums(Arrived(rounds, |rounds|) + last.arrivals)
    requires Verdict(AtClose(lens, rounds, last), dropped, counted, closed).0
    ensures var s := AtClose(lens, rounds, last);
      && dropped == 0 && s.store == Rows(lens, s.handed) && Strict(s.handed)
      && multiset(s.handed) == multiset(Arrived(rounds, |rounds|) + last.arrivals)
      && (lens.active ==> !Lost(lens, s.handed))
  {
    CloseBalanced(lens, rounds, last);
    AllHandedOnce(lens, rounds, last);
    CloseStrict(lens, rounds, last);
    NeverForced(lens, rounds, |rounds|);
    RoundUnlost(lens, After(lens, rounds, |rounds|), last.arrivals, true, last.writes);
  }

  /** However a capture ends, the drops recorded for it cover every captured message that is not in the store: exactly,
   *  but for one more when context was lost. */
  lemma {:induction false} DropsCover(lens: Lens, rounds: seq<Batch>, last: Batch, dropped: nat, closed: bool)
    ensures var s := AtClose(lens, rounds, last);
      var captured := |Arrived(rounds, |rounds|) + last.arrivals| + dropped;
      Verdict(s, dropped, true, closed).1 == captured - |s.store| + (if s.reported then 1 else 0)
  {
    var s, all := AtClose(lens, rounds, last), Arrived(rounds, |rounds|) + last.arrivals;
    CloseBalanced(lens, rounds, last);
    AllHandedOnce(lens, rounds, last);
    assert |multiset(s.handed)| == |multiset(all)|;
  }
}
