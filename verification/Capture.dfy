/** From the wire to the artifact: a capture that ends well exports, and the export is valid. */
module Capture {
  import opened Json
  import opened Policy
  import opened Redact
  import opened Protocol
  import opened Writer
  import opened Recorder
  import Tracker
  import Artifact

  predicate AllObjects(handed: seq<Message>) { forall m :: m in handed ==> m.payload.Obj? }

  function WireTrace(handed: seq<Message>): seq<Tracker.Observation> {
    seq(|handed|,
        i requires 0 <= i < |handed| => Tracker.Observed(handed[i].num, handed[i].direction.Name(), handed[i].payload))
  }

  function Seen(see: Message -> Tracker.Observation, handed: seq<Message>): seq<Tracker.Observation> {
    seq(|handed|, i requires 0 <= i < |handed| => see(handed[i]))
  }

  /** A lens that steps a tracker is after some messages in the tracker's state after them. */
  lemma {:induction false} LensFollows(lens: Lens, full: set<Tracker.Key> -> bool, see: Message -> Tracker.Observation,
                                       handed: seq<Message>)
    requires forall s, m :: lens.observe(s, m) == Tracker.Step(full, s, see(m))
    ensures TrackerAfter(lens, handed) == Tracker.StateAfter(full, Seen(see, handed), |handed|)
  {
    if |handed| > 0 {
      var init, last := handed[..|handed| - 1], handed[|handed| - 1];
      LensFollows(lens, full, see, init);
      assert Seen(see, handed) == Seen(see, init) + [see(last)];
      Tracker.StatePrefix(full, Seen(see, init), see(last), |init|);
    }
  }

  lemma {:induction false} TrackerIsState(policy: Policy, handed: seq<Message>)
    ensures TrackerAfter(LensOf(policy), handed) ==
      Tracker.StateAfter(Tracker.AtCapacity(), WireTrace(handed), |handed|)
  {
    var see := (m: Message) => Tracker.Observed(m.num, m.direction.Name(), m.payload);
    LensFollows(LensOf(policy), Tracker.AtCapacity(), see, handed);
    assert Seen(see, handed) == WireTrace(handed);
  }

  /** The context in which a message was redacted on its way to the store: what the messages before it make of it. */
  function WireContext(handed: seq<Message>, i: nat): Context
    requires i < |handed|
  {
    Tracker.ContextAt(Tracker.AtCapacity(), WireTrace(handed), i)
  }

  /** Each row in the context of the messages before it. */
  lemma {:induction false} RowInContext(lens: Lens, handed: seq<Message>, i: nat)
    requires i < |handed|
    ensures Rows(lens, handed)[i] == lens.row(handed[i], lens.observe(TrackerAfter(lens, handed[..i]), handed[i]).1)
  {
    var last := |handed| - 1;
    if i < last {
      RowInContext(lens, handed[..last], i);
      assert handed[..last][..i] == handed[..i];
    }
  }

  lemma {:induction false} WireState(policy: Policy, handed: seq<Message>, i: nat)
    requires i < |handed|
    ensures TrackerAfter(LensOf(policy), handed[..i]) ==
      Tracker.StateAfter(Tracker.AtCapacity(), WireTrace(handed), i)
  {
    TrackerIsState(policy, handed[..i]);
    assert WireTrace(handed[..i]) == WireTrace(handed)[..i];
    Tracker.StateOfPrefix(Tracker.AtCapacity(), WireTrace(handed), i, i);
  }

  lemma {:induction false} RowAt(policy: Policy, handed: seq<Message>, i: nat)
    requires i < |handed|
    ensures Rows(LensOf(policy), handed)[i] == RowOf(policy, handed[i], WireContext(handed, i))
  {
    RowInContext(LensOf(policy), handed, i);
    WireState(policy, handed, i);
  }

  /** The row of a message: a known direction, the columns its payload implies, an object exactly if the message is
   *  one. */
  lemma {:induction false} RowOfMessage(policy: Policy, handed: seq<Message>, i: nat) returns (context: Context)
    requires i < |handed|
    ensures var row := Rows(LensOf(policy), handed)[i];
      && context == WireContext(handed, i)
      && row == RowOf(policy, handed[i], context) && row.payload.Some? && FromName(row.direction).Some?
      && row.fields == Derived(row.payload.value) && (row.payload.value.Obj? <==> handed[i].payload.Obj?)
      && (handed[i].payload.Obj? ==> Artifact.StoredUnder(policy, row))
  {
    context := WireContext(handed, i);
    RowAt(policy, handed, i);
  }

  // ---------------------------------------------------------------- the exporter loses no context either

  function MaskedKeys(id: string): set<Tracker.Key> { {Tracker.Key(true, id), Tracker.Key(false, id)} }

  lemma {:induction false} AskingFlag(direction: string, w: Json)
    ensures Tracker.Asks(Tracker.Classify(direction, w)) ==> Tracker.IsListRequest(w)
  {
  }

  lemma {:induction false} MaskedAsks(direction: string, w: Json, id: Json)
    requires w.Get("id").Some? ==> w.Get("id") == Some(id)
    requires id.Str? && Utf8Len(id.s) <= Tracker.MAX_TRACKED_ID_BYTES
      && Utf8Len(Text(id)) <= Tracker.MAX_TRACKED_ID_BYTES
    ensures var e := Tracker.Classify(direction, w); Tracker.Asks(e) ==> e.Request? && e.key in MaskedKeys(Text(id))
  {
  }

  lemma {:induction false} TwoKeys(id: string)
    ensures |MaskedKeys(id)| <= 2 < Tracker.MAX_PENDING_LIST_REQUESTS
  {
  }

  lemma {:induction false} HiddenEvent(masks: string -> bool, context: Context, direction: string, v: Json)
    requires v.Obj? && (masks("jsonrpc") || masks("method"))
    ensures !Tracker.Asks(Tracker.Classify(direction, Rewrite(masks, Placeholder, Role.Message(context), v)))
  {
    Artifact.FlagsAfter(masks, context, v);
    AskingFlag(direction, Rewrite(masks, Placeholder, Role.Message(context), v));
  }

  lemma {:induction false} MaskedEvent(masks: string -> bool, context: Context, direction: string, v: Json)
    requires v.Obj? && masks("id")
    ensures var e := Tracker.Classify(direction, Rewrite(masks, Placeholder, Role.Message(context), v));
      Tracker.Asks(e) ==> e.Request? && e.key in MaskedKeys(Text(MASK))
  {
    Artifact.MessageGet(masks, context, v, "id");
    Artifact.MaskShort();
    MaskedAsks(direction, Rewrite(masks, Placeholder, Role.Message(context), v), MASK);
  }

  lemma {:induction false} OpenEvent(masks: string -> bool, context: Context, direction: string, v: Json)
    requires v.Obj? && !masks("jsonrpc") && !masks("method") && !masks("id")
    ensures Tracker.Classify(direction, Rewrite(masks, Placeholder, Role.Message(context), v)) ==
      Tracker.Classify(direction, v)
  {
    Artifact.TrackedAlikeIff(masks, context, direction, v);
  }

  /** One stored row as the exporter's tracker sees it. */
  lemma {:induction false} StoredEvent(policy: Policy, handed: seq<Message>, i: nat)
    requires i < |handed| && policy.Active() && handed[i].payload.Obj?
    ensures var e, masks := Artifact.RowTrace(Rows(LensOf(policy), handed))[i], Masks(policy.RedactorKeys());
      && (masks("jsonrpc") || masks("method") ==> !Tracker.Asks(e.event))
      && (masks("id") && Tracker.Asks(e.event) ==> e.event.Request? && e.event.key in MaskedKeys(Text(MASK)))
      && (!masks("jsonrpc") && !masks("method") && !masks("id") ==> e == WireTrace(handed)[i])
  {
    var context := RowOfMessage(policy, handed, i);
    var m, masks := handed[i], Masks(policy.RedactorKeys());
    if masks("jsonrpc") || masks("method") { HiddenEvent(masks, context, m.direction.Name(), m.payload); }
    if masks("id") { MaskedEvent(masks, context, m.direction.Name(), m.payload); }
    if !masks("jsonrpc") && !masks("method") && !masks("id") {
      OpenEvent(masks, context, m.direction.Name(), m.payload);
    }
  }

  /** What masking hides from the exporter's tracker only spares it work. */
  lemma {:induction false} StoredUnlost(policy: Policy, handed: seq<Message>)
    requires policy.Active() && AllObjects(handed) && !Lost(LensOf(policy), handed)
    ensures !Tracker.StateAfter(Tracker.AtCapacity(), Artifact.RowTrace(Rows(LensOf(policy), handed)),
                                |handed|).lostContext
  {
    var trace, masks := Artifact.RowTrace(Rows(LensOf(policy), handed)), Masks(policy.RedactorKeys());
    forall i | 0 <= i < |handed|
      ensures masks("jsonrpc") || masks("method") ==> !Tracker.Asks(trace[i].event)
      ensures masks("id") && Tracker.Asks(trace[i].event) ==>
          trace[i].event.Request? && trace[i].event.key in MaskedKeys(Text(MASK))
      ensures !masks("jsonrpc") && !masks("method") && !masks("id") ==> trace[i] == WireTrace(handed)[i]
    {
      StoredEvent(policy, handed, i);
    }
    if masks("jsonrpc") || masks("method") {
      Tracker.NobodyAsks(Tracker.AtCapacity(), trace, |handed|);
    } else if masks("id") {
      TwoKeys(Text(MASK));
      Tracker.FewAsk(MaskedKeys(Text(MASK)), trace, |handed|);
    } else {
      assert trace == WireTrace(handed);
      TrackerIsState(policy, handed);
    }
  }

  // ---------------------------------------------------------------- export of what was stored

  lemma {:induction false} RowExportableIff(policy: Policy, handed: seq<Message>, i: nat)
    requires i < |handed| && (policy.Active() ==> !Lost(LensOf(policy), handed))
    ensures var fault := Artifact.RowFault(policy, Rows(LensOf(policy), handed), i);
      (fault.None? ==> handed[i].payload.Obj?) && (AllObjects(handed) ==> fault.None?)
  {
    var context := RowOfMessage(policy, handed, i);
    if AllObjects(handed) && policy.Active() {
      StoredUnlost(policy, handed);
      Tracker.LostStays(Tracker.AtCapacity(), Artifact.RowTrace(Rows(LensOf(policy), handed)), i + 1, |handed|);
    }
  }

  lemma {:induction false} RowsExportableIff(policy: Policy, handed: seq<Message>)
    requires policy.Active() ==> !Lost(LensOf(policy), handed)
    ensures Artifact.Exportable(policy, Rows(LensOf(policy), handed)) <==> AllObjects(handed)
  {
    var rows := Rows(LensOf(policy), handed);
    forall i | 0 <= i < |rows|
      ensures var fault := Artifact.RowFault(policy, rows, i);
        (fault.None? ==> handed[i].payload.Obj?) && (AllObjects(handed) ==> fault.None?)
    {
      RowExportableIff(policy, handed, i);
    }
  }

  /** The context in which the exporter redacts a stored message again: what the rows before it make of it. */
  function ExportContext(policy: Policy, handed: seq<Message>, i: nat): Context
    requires i < |handed|
  {
    Tracker.ContextAt(Tracker.AtCapacity(), Artifact.RowTrace(Rows(LensOf(policy), handed)), i)
  }

  /** The policy masks nothing that list requests and their answers are known by. */
  predicate TrackerKeysOpen(policy: Policy) {
    var masks := Masks(policy.RedactorKeys());
    policy.Active() ==> !masks("jsonrpc") && !masks("method") && !masks("id")
  }

  /** The second redaction finds nothing: it knows the tool list for one as well, or there was none, or no name in it
   *  was kept for its place. */
  predicate Settled(policy: Policy, handed: seq<Message>, i: nat)
    requires i < |handed|
  {
    policy.Active() ==>
      || WireContext(handed, i) == Runtime || ExportContext(policy, handed, i) == ToolListResponse
      || KeepsNoName(Masks(policy.RedactorKeys()), Role.Message(ToolListResponse), handed[i].payload)
  }

  /** An entry of a document is a message, redacted on the way to the store and again on the way out; the second time
   *  changes something only where the exporter no longer knows a tool list for one. */
  predicate Carries(policy: Policy, e: Artifact.Entry, handed: seq<Message>, i: nat)
    requires i < |handed|
  {
    var m := handed[i];
    var stored := Redacted(policy, Placeholder, WireContext(handed, i), m.payload);
    && e.num == m.num && e.ts == m.ts && e.direction == m.direction.Name() && e.payloadBytes == m.payloadBytes
    && e.payload == Redacted(policy, Placeholder, ExportContext(policy, handed, i), stored)
    && (e.payload == stored <==> Settled(policy, handed, i)) && (TrackerKeysOpen(policy) ==> e.payload == stored)
  }

  predicate AllCarried(policy: Policy, d: Artifact.Document, handed: seq<Message>) {
    |d.messages| == |handed| && forall i :: 0 <= i < |handed| ==> Carries(policy, d.messages[i], handed, i)
  }

  lemma {:induction false} SettledIff(policy: Policy, handed: seq<Message>, i: nat)
    requires i < |handed|
    ensures var stored := Redacted(policy, Placeholder, WireContext(handed, i), handed[i].payload);
      Redacted(policy, Placeholder, ExportContext(policy, handed, i), stored) == stored <==> Settled(policy, handed, i)
  {
    SecondRedactionIff(Masks(policy.RedactorKeys()), WireContext(handed, i), ExportContext(policy, handed, i),
                       handed[i].payload);
  }

  /** Then the exporter finds the context of every message again. */
  lemma {:induction false} SameContext(policy: Policy, handed: seq<Message>, i: nat)
    requires i < |handed| && policy.Active() && TrackerKeysOpen(policy) && AllObjects(handed)
    ensures ExportContext(policy, handed, i) == WireContext(handed, i)
  {
    var stored, wire := Artifact.RowTrace(Rows(LensOf(policy), handed)), WireTrace(handed);
    forall k | 0 <= k < |handed| ensures stored[k] == wire[k] { StoredEvent(policy, handed, k); }
    assert stored == wire;
  }

  lemma {:induction false} EntryOf(policy: Policy, handed: seq<Message>, i: nat)
    requires i < |handed| && Artifact.Exportable(policy, Rows(LensOf(policy), handed))
    ensures var e, m := Artifact.ExportedRows(policy, Rows(LensOf(policy), handed))[i], handed[i];
      && e.num == m.num && e.ts == m.ts && e.direction == m.direction.Name() && e.payloadBytes == m.payloadBytes
      && e.payload == Redacted(policy, Placeholder, ExportContext(policy, handed, i),
                               Redacted(policy, Placeholder, WireContext(handed, i), m.payload))
  {
    RowAt(policy, handed, i);
    assert Artifact.RowFault(policy, Rows(LensOf(policy), handed), i).None?;
  }

  lemma {:induction false} EntryCarries(policy: Policy, handed: seq<Message>, i: nat)
    requires i < |handed| && Artifact.Exportable(policy, Rows(LensOf(policy), handed)) && AllObjects(handed)
    ensures Carries(policy, Artifact.ExportedRows(policy, Rows(LensOf(policy), handed))[i], handed, i)
  {
    EntryOf(policy, handed, i);
    SettledIff(policy, handed, i);
    if policy.Active() && TrackerKeysOpen(policy) { SameContext(policy, handed, i); }
  }

  /** Messages stored in order and without loss of context, under any policy: they export under it exactly if all are
   *  objects, and then to a valid document that carries each of them in its place. */
  lemma {:induction false} RowsExportIff(policy: Policy, handed: seq<Message>, session: Artifact.Session,
                                         options: Artifact.ExportOptions, now: int, exporter: string)
    requires policy.Active() ==> !Lost(LensOf(policy), handed)
    requires Strict(handed) && |handed| <= Artifact.MAX_MESSAGES && session.dropped >= 0
    requires Artifact.EffectivePolicy(session, options) == Ok(policy)
    ensures var d := Artifact.ExportDocument(session, Rows(LensOf(policy), handed), options, now, exporter);
      && (d.Ok? <==> AllObjects(handed))
      && (d.Ok? ==> Artifact.Valid(d.value) && AllCarried(policy, d.value, handed))
  {
    var rows := Rows(LensOf(policy), handed);
    RowsExportableIff(policy, handed);
    Artifact.ExportableIff(policy, rows);
    if AllObjects(handed) {
      forall i | 0 <= i < |rows|
        ensures rows[i].num == handed[i].num && FromName(rows[i].direction).Some? && rows[i].payload.Some?
        ensures rows[i].fields == Derived(rows[i].payload.value) && Artifact.StoredUnder(policy, rows[i])
      {
        var context := RowOfMessage(policy, handed, i);
      }
      forall i | 0 <= i < |rows|
        ensures Carries(policy, Artifact.ExportedRows(policy, rows)[i], handed, i)
      {
        EntryCarries(policy, handed, i);
      }
      forall row | row in rows ensures Artifact.StoredUnder(policy, row) {
        var i :| 0 <= i < |rows| && rows[i] == row;
      }
      Artifact.StoredExportValid(session, rows, options, now, exporter);
    }
  }

  // ---------------------------------------------------------------- a whole capture

  /** What a document keeps of a message whatever the policy. */
  datatype Stamp = Stamp(num: nat, ts: int, direction: string, payloadBytes: nat)

  const STAMP: Message -> Stamp := (m: Message) => Stamp(m.num, m.ts, m.direction.Name(), m.payloadBytes)

  const ENTRY_STAMP: Artifact.Entry -> Stamp := (e: Artifact.Entry) => Stamp(e.num, e.ts, e.direction, e.payloadBytes)

  function Stamps<T>(s: seq<T>, stamp: T -> Stamp): seq<Stamp> { seq(|s|, i requires 0 <= i < |s| => stamp(s[i])) }

  lemma {:induction false} TakenOut<T>(b: seq<T>, i: nat)
    requires i < |b|
    ensures multiset(b) == multiset(b[..i] + b[i + 1..]) + multiset{b[i]}
  {
    assert b == b[..i] + [b[i]] + b[i + 1..];
  }

  lemma {:induction false} StampTakenOut<T>(b: seq<T>, i: nat, stamp: T -> Stamp)
    requires i < |b|
    ensures multiset(Stamps(b, stamp)) == multiset(Stamps(b[..i] + b[i + 1..], stamp)) + multiset{stamp(b[i])}
  {
    var t := Stamps(b, stamp);
    TakenOut(t, i);
    assert t[..i] + t[i + 1..] == Stamps(b[..i] + b[i + 1..], stamp);
  }

  lemma {:induction false} SameRest<T>(a: seq<T>, b: seq<T>, i: nat)
    requires multiset(a) == multiset(b) && |a| > 0 && i < |b| && a[0] == b[i]
    ensures multiset(a[..0] + a[1..]) == multiset(b[..i] + b[i + 1..])
  {
    TakenOut(a, 0);
    TakenOut(b, i);
    CancelOne(multiset(a[..0] + a[1..]), multiset(b[..i] + b[i + 1..]), a[0]);
  }

  lemma {:induction false} CancelOne<T>(x: multiset<T>, y: multiset<T>, e: T)
    requires x + multiset{e} == y + multiset{e}
    ensures x == y
  {
    assert x == x + multiset{e} - multiset{e} && y == y + multiset{e} - multiset{e};
  }

  lemma {:induction false} SameStamps<T>(a: seq<T>, b: seq<T>, stamp: T -> Stamp)
    requires multiset(a) == multiset(b)
    ensures multiset(Stamps(a, stamp)) == multiset(Stamps(b, stamp))
  {
    if |a| == 0 {
      assert |multiset(b)| == 0;
    } else {
      assert a[0] in multiset(b);
      var i :| 0 <= i < |b| && b[i] == a[0];
      var x, y := a[..0] + a[1..], b[..i] + b[i + 1..];
      SameRest(a, b, i);
      SameStamps(x, y, stamp);
      StampTakenOut(a, 0, stamp);
      StampTakenOut(b, i, stamp);
    }
  }

  predicate Ascending(d: Artifact.Document) {
    forall i, j :: 0 <= i < j < |d.messages| ==> d.messages[i].num < d.messages[j].num
  }

  /** Every message once, in ascending order, and what became of its payload. */
  ghost predicate HoldsOnce(policy: Policy, d: Artifact.Document, all: seq<Message>) {
    && Ascending(d) && multiset(Stamps(d.messages, ENTRY_STAMP)) == multiset(Stamps(all, STAMP))
    && exists handed :: Strict(handed) && multiset(handed) == multiset(all) && AllCarried(policy, d, handed)
  }

  lemma {:induction false} CarriedOnce(policy: Policy, d: Artifact.Document, handed: seq<Message>, all: seq<Message>)
    requires AllCarried(policy, d, handed) && Strict(handed) && multiset(handed) == multiset(all)
    ensures HoldsOnce(policy, d, all)
  {
    SameStamps(handed, all, STAMP);
    forall i | 0 <= i < |handed|
      ensures ENTRY_STAMP(d.messages[i]) == STAMP(handed[i]) && d.messages[i].num == handed[i].num
    {
      assert Carries(policy, d.messages[i], handed, i);
    }
    assert Stamps(d.messages, ENTRY_STAMP) == Stamps(handed, STAMP);
  }

  /** Whatever the order in which a capture's messages reach the writer, and whatever its policy: if the capture ends
   *  well and every message is an object, the rows export under that policy to a document the validator accepts, with
   *  every message once, in ascending order; and a message that is no object is the only obstacle. */
  lemma {:induction false} OkCaptureExports(policy: Policy, rounds: seq<Batch>, last: Batch, dropped: nat,
                                            counted: bool,
                                            closed: bool, session: Artifact.Session, options: Artifact.ExportOptions,
                                            now: int, exporter: string)
    requires var all := Arrived(rounds, |rounds|) + last.arrivals; DistinctNums(all) && |all| <= Artifact.MAX_MESSAGES
    requires Verdict(AtClose(LensOf(policy), rounds, last), dropped, counted, closed).0
    requires Artifact.EffectivePolicy(session, options) == Ok(policy) && session.dropped == 0
    ensures var all := Arrived(rounds, |rounds|) + last.arrivals;
      var d := Artifact.ExportDocument(session, AtClose(LensOf(policy), rounds, last).store, options, now, exporter);
      && (d.Ok? <==> AllObjects(all))
      && (d.Ok? ==> Artifact.Valid(d.value) && HoldsOnce(policy, d.value, all))
  {
    OkHoldsAll(LensOf(policy), rounds, last, dropped, counted, closed);
    HandedExport(policy, AtClose(LensOf(policy), rounds, last).handed, Arrived(rounds, |rounds|) + last.arrivals,
                 session, options, now, exporter);
  }

  /** And so from the frames: under the bounds of the queue, in whatever interleaving, a capture that ends well has
   *  recorded every frame forwarded, and exports, if all are objects, to a valid document that holds each once. */
  lemma {:induction false} OkFramesExport(policy: Policy, l: Limits, events: seq<Event>, rounds: seq<Batch>,
                                          last: Batch, counted: bool, closed: bool, session: Artifact.Session,
                                          options: Artifact.ExportOptions, now: int, exporter: string)
    requires var frames := Frames(events, |events|); DistinctStamps(frames) && |frames| <= Artifact.MAX_MESSAGES
    requires Fed(l, events, rounds, last)
    requires Verdict(AtClose(LensOf(policy), rounds, last), IntakeAfter(l, events, |events|).dropped, counted, closed).0
    requires Artifact.EffectivePolicy(session, options) == Ok(policy) && session.dropped == 0
    ensures var frames := Frames(events, |events|);
      var d := Artifact.ExportDocument(session, AtClose(LensOf(policy), rounds, last).store, options, now, exporter);
      && AllDecoded(frames) && (d.Ok? <==> AllObjects(Messages(frames)))
      && (d.Ok? ==> Artifact.Valid(d.value) && HoldsOnce(policy, d.value, Messages(frames)))
  {
    OkHoldsEveryFrame(LensOf(policy), l, events, rounds, last, counted, closed);
    HandedExport(policy, AtClose(LensOf(policy), rounds, last).handed, Messages(Frames(events, |events|)), session,
                 options, now, exporter);
  }

  lemma {:induction false} HandedExport(policy: Policy, handed: seq<Message>, all: seq<Message>,
                                        session: Artifact.Session,
                                        options: Artifact.ExportOptions, now: int, exporter: string)
    requires policy.Active() ==> !Lost(LensOf(policy), handed)
    requires Strict(handed) && multiset(handed) == multiset(all) && |all| <= Artifact.MAX_MESSAGES
      && session.dropped == 0
    requires Artifact.EffectivePolicy(session, options) == Ok(policy)
    ensures var d := Artifact.ExportDocument(session, Rows(LensOf(policy), handed), options, now, exporter);
      && (d.Ok? <==> AllObjects(all))
      && (d.Ok? ==> Artifact.Valid(d.value) && HoldsOnce(policy, d.value, all))
  {
    SameMembers(handed, all);
    RowsExportIff(policy, handed, session, options, now, exporter);
    var d := Artifact.ExportDocument(session, Rows(LensOf(policy), handed), options, now, exporter);
    if d.Ok? { CarriedOnce(policy, d.value, handed, all); }
  }

  lemma {:induction false} SameMembers(a: seq<Message>, b: seq<Message>)
    requires multiset(a) == multiset(b)
    ensures |a| == |b| && forall m :: m in a <==> m in b
  {
    assert |multiset(a)| == |multiset(b)|;
    assert forall m :: m in a <==> m in multiset(a);
  }
}
