/** The capturing side: every forwarded frame is queued within two bounds or counted as dropped; and what that makes
 *  of a whole capture, together with the writer behind the queue. */
module Recorder {
  import opened Json
  import opened Protocol
  import opened Writer

  const STORAGE_EVENT_OVERHEAD_BYTES := 1024

  /** A forwarded frame: its stamp, its size, and the JSON its bytes are, if they are any. */
  datatype Frame = Frame(num: nat, ts: int, direction: Direction, size: nat, decoded: Option<Json>)

  function MessageOf(f: Frame): Message
    requires f.decoded.Some?
  {
    Message(f.num, f.ts, f.direction, f.decoded.value, f.size)
  }

  /** What a queued message takes of the byte budget. */
  function Cost(m: Message): nat {
    var bytes := m.payloadBytes + STORAGE_EVENT_OVERHEAD_BYTES;
    if bytes > U64_MAX then U64_MAX else bytes
  }

  function Bytes(messages: seq<Message>): nat {
    if |messages| == 0 then 0 else Bytes(messages[..|messages| - 1]) + Cost(messages[|messages| - 1])
  }

  lemma {:induction false} BytesSplit(a: seq<Message>, b: seq<Message>)
    ensures Bytes(a + b) == Bytes(a) + Bytes(b)
  {
    if |b| == 0 {
      assert a + b == a;
    } else {
      assert (a + b)[..|a + b| - 1] == a + b[..|b| - 1];
      BytesSplit(a, b[..|b| - 1]);
    }
  }

  lemma {:induction false} BytesWithout(s: seq<Message>, i: nat)
    requires i < |s|
    ensures Bytes(s[..i] + s[i + 1..]) + Cost(s[i]) == Bytes(s)
  {
    assert s == s[..i] + ([s[i]] + s[i + 1..]);
    assert [s[i]][..0] == [];
    BytesSplit(s[..i], [s[i]] + s[i + 1..]);
    BytesSplit([s[i]], s[i + 1..]);
    BytesSplit(s[..i], s[i + 1..]);
  }

  // ---------------------------------------------------------------- the queue

  datatype Limits = Limits(maxBytes: nat, slots: nat)

  /** Messages waiting in the channel, messages the writer has received and not let go of yet, the frames dropped, and
   *  whether the writer still listens. */
  datatype Intake = Intake(queue: seq<Message>, held: seq<Message>, dropped: nat, connected: bool)

  const EMPTY := Intake([], [], 0, true)

  /** A slot in the channel, and bytes beside those of every message waiting or held. */
  predicate HasRoom(l: Limits, s: Intake, m: Message) {
    s.connected && |s.queue| < l.slots && Bytes(s.queue) + Bytes(s.held) + Cost(m) <= l.maxBytes
  }

  function Offered(l: Limits, s: Intake, m: Message): Intake {
    if HasRoom(l, s, m) then s.(queue := s.queue + [m]) else s.(dropped := s.dropped + 1)
  }

  function Captured(l: Limits, s: Intake, f: Frame): Intake {
    match f.decoded
    case None => s.(dropped := s.dropped + 1)
    case Some(_) => Offered(l, s, MessageOf(f))
  }

  function Received(s: Intake): Intake
    requires |s.queue| > 0
  {
    s.(queue := s.queue[1..], held := s.held + [s.queue[0]])
  }

  function LetGo(s: Intake, i: nat): Intake
    requires i < |s.held|
  {
    s.(held := s.held[..i] + s.held[i + 1..])
  }

  class FrameRecorder {
    const limits: Limits
    var queuedBytes: nat
    var queue: seq<Message>
    var held: seq<Message>
    var dropped: nat
    var connected: bool

    ghost function Now(): Intake
      reads this
    {
      Intake(queue, held, dropped, connected)
    }

    /** The counter is the sum of the live reservations, and both bounds hold. */
    ghost predicate Valid()
      reads this
    {
      queuedBytes == Bytes(queue) + Bytes(held) && queuedBytes <= limits.maxBytes && |queue| <= limits.slots
    }

    constructor (limits: Limits)
      ensures Valid() && Now() == EMPTY && this.limits == limits
    {
      this.limits := limits;
      queuedBytes, queue, held, dropped, connected := 0, [], [], 0, true;
    }

    method TryReserve(bytes: nat) returns (ok: bool)
      modifies this`queuedBytes
      ensures ok <==> old(queuedBytes) + bytes <= limits.maxBytes
      ensures queuedBytes == old(queuedBytes) + if ok then bytes else 0
    {
      if bytes > limits.maxBytes { return false; }
      var limit := limits.maxBytes - bytes;
      if queuedBytes > limit { return false; }
      queuedBytes := queuedBytes + bytes;
      return true;
    }

    /** `try_record`: a reservation that finds no slot, or no writer, is given back. */
    method TryRecord(m: Message)
      requires Valid()
      modifies this
      ensures Valid() && Now() == Offered(limits, old(Now()), m)
    {
      var bytes := Cost(m);
      var reserved := TryReserve(bytes);
      if !reserved {
        dropped := dropped + 1;
        return;
      }
      if connected && |queue| < limits.slots {
        BytesSplit(queue, [m]);
        assert [m][..0] == [];
        queue := queue + [m];
      } else {
        queuedBytes := queuedBytes - bytes;
        dropped := dropped + 1;
      }
    }

    /** `record_frame`. */
    method RecordFrame(f: Frame)
      requires Valid()
      modifies this
      ensures Valid() && Now() == Captured(limits, old(Now()), f)
    {
      if f.decoded.None? {
        dropped := dropped + 1;
        return;
      }
      TryRecord(MessageOf(f));
    }

    /** The writer receives the first message; its reservation lives on. */
    method Receive() returns (m: Message)
      requires Valid() && |queue| > 0
      modifies this
      ensures Valid() && m == old(queue[0]) && Now() == Received(old(Now()))
    {
      m := queue[0];
      BytesSplit([m], queue[1..]);
      BytesSplit(held, [m]);
      assert queue == [m] + queue[1..] && [m][..0] == [];
      queue, held := queue[1..], held + [m];
    }

    /** The writer is done with a message: its bytes are free again. */
    method Release(i: nat)
      requires Valid() && i < |held|
      modifies this
      ensures Valid() && Now() == LetGo(old(Now()), i)
    {
      BytesWithout(held, i);
      queuedBytes := queuedBytes - Cost(held[i]);
      held := held[..i] + held[i + 1..];
    }
  }

  // ---------------------------------------------------------------- whole runs

  /** What can happen at the queue, in any order: a pump forwards a frame, the writer receives, the writer lets go. */
  datatype Event = Forward(frame: Frame) | Receive | Release(index: nat)

  function Step(l: Limits, s: Intake, e: Event): Intake {
    match e
    case Forward(f) => Captured(l, s, f)
    case Receive => if |s.queue| > 0 then Received(s) else s
    case Release(i) => if i < |s.held| then LetGo(s, i) else s
  }

  function IntakeAfter(l: Limits, events: seq<Event>, n: nat): Intake
    requires n <= |events|
  {
    if n == 0 then EMPTY else Step(l, IntakeAfter(l, events, n - 1), events[n - 1])
  }

  function FramesOf(e: Event): seq<Frame> { if e.Forward? then [e.frame] else [] }

  function QueuedBy(l: Limits, s: Intake, e: Event): seq<Message> {
    if e.Forward? && e.frame.decoded.Some? && HasRoom(l, s, MessageOf(e.frame)) then [MessageOf(e.frame)] else []
  }

  function TakenBy(s: Intake, e: Event): seq<Message> { if e.Receive? && |s.queue| > 0 then [s.queue[0]] else [] }

  /** The frames forwarded, in order. */
  function Frames(events: seq<Event>, n: nat): seq<Frame>
    requires n <= |events|
  {
    if n == 0 then [] else Frames(events, n - 1) + FramesOf(events[n - 1])
  }

  /** The messages that came into the queue, in order. */
  function Queued(l: Limits, events: seq<Event>, n: nat): seq<Message>
    requires n <= |events|
  {
    if n == 0 then [] else Queued(l, events, n - 1) + QueuedBy(l, IntakeAfter(l, events, n - 1), events[n - 1])
  }

  /** The messages the writer received, in order. */
  function Taken(l: Limits, events: seq<Event>, n: nat): seq<Message>
    requires n <= |events|
  {
    if n == 0 then [] else Taken(l, events, n - 1) + TakenBy(IntakeAfter(l, events, n - 1), events[n - 1])
  }

  predicate AllDecoded(frames: seq<Frame>) { forall i :: 0 <= i < |frames| ==> frames[i].decoded.Some? }

  function Messages(frames: seq<Frame>): seq<Message>
    requires AllDecoded(frames)
  {
    seq(|frames|, i requires 0 <= i < |frames| => MessageOf(frames[i]))
  }

  /** What was taken and what waits is what was queued; queued and dropped are all frames; and both bounds hold. */
  predicate Accounted(l: Limits, s: Intake, taken: seq<Message>, queued: seq<Message>, frames: nat) {
    && taken + s.queue == queued && |queued| + s.dropped == frames
    && Bytes(s.queue) + Bytes(s.held) <= l.maxBytes && |s.queue| <= l.slots
  }

  lemma {:induction false} OneMoreQueued(taken: seq<Message>, queue: seq<Message>, m: Message)
    ensures taken + (queue + [m]) == taken + queue + [m]
    ensures Bytes(queue + [m]) == Bytes(queue) + Cost(m)
  {
    BytesSplit(queue, [m]);
    assert [m][..0] == [];
  }

  lemma {:induction false} OneTaken(taken: seq<Message>, s: Intake)
    requires |s.queue| > 0
    ensures taken + [s.queue[0]] + Received(s).queue == taken + s.queue
    ensures Bytes(Received(s).queue) + Bytes(Received(s).held) == Bytes(s.queue) + Bytes(s.held)
  {
    var m := s.queue[0];
    BytesSplit([m], s.queue[1..]);
    BytesSplit(s.held, [m]);
    assert s.queue == [m] + s.queue[1..] && [m][..0] == [];
  }

  lemma {:induction false} ForwardAccounted(l: Limits, s: Intake, taken: seq<Message>, queued: seq<Message>,
                                            frames: nat, f: Frame)
    requires Accounted(l, s, taken, queued, frames)
    ensures Accounted(l, Captured(l, s, f), taken, queued + QueuedBy(l, s, Forward(f)), frames + 1)
  {
    if f.decoded.Some? { OneMoreQueued(taken, s.queue, MessageOf(f)); }
  }

  lemma {:induction false} ReceiveAccounted(l: Limits, s: Intake, taken: seq<Message>, queued: seq<Message>,
                                            frames: nat)
    requires Accounted(l, s, taken, queued, frames) && |s.queue| > 0
    ensures Accounted(l, Received(s), taken + [s.queue[0]], queued, frames)
  {
    OneTaken(taken, s);
  }

  lemma {:induction false} ReleaseAccounted(l: Limits, s: Intake, taken: seq<Message>, queued: seq<Message>,
                                            frames: nat, i: nat)
    requires Accounted(l, s, taken, queued, frames) && i < |s.held|
    ensures Accounted(l, LetGo(s, i), taken, queued, frames)
  {
    BytesWithout(s.held, i);
  }

  lemma {:induction false} StepAccounted(l: Limits, s: Intake, taken: seq<Message>, queued: seq<Message>, frames: nat,
                                         e: Event)
    requires Accounted(l, s, taken, queued, frames)
    ensures Accounted(l, Step(l, s, e), taken + TakenBy(s, e), queued + QueuedBy(l, s, e), frames + |FramesOf(e)|)
  {
    assert taken + [] == taken && queued + [] == queued;
    match e
    case Forward(f) => ForwardAccounted(l, s, taken, queued, frames, f);
    case Receive => if |s.queue| > 0 { ReceiveAccounted(l, s, taken, queued, frames); }
    case Release(i) => if i < |s.held| { ReleaseAccounted(l, s, taken, queued, frames, i); }
  }

  /** What holds of the state and the totals at the start and is kept by every event holds after any run. */
  lemma {:induction false} RunKeeps(l: Limits, events: seq<Event>, n: nat,
                                    holds: (Intake, seq<Message>, seq<Message>, seq<Frame>) -> bool)
    requires n <= |events| && holds(EMPTY, [], [], [])
    requires forall s, taken, queued, frames, e {:trigger holds(s, taken, queued, frames), Step(l, s, e)} ::
        holds(s, taken, queued, frames) ==>
        holds(Step(l, s, e), taken + TakenBy(s, e), queued + QueuedBy(l, s, e), frames + FramesOf(e))
    ensures holds(IntakeAfter(l, events, n), Taken(l, events, n), Queued(l, events, n), Frames(events, n))
  {
    if n > 0 {
      RunKeeps(l, events, n - 1, holds);
      assert IntakeAfter(l, events, n) == Step(l, IntakeAfter(l, events, n - 1), events[n - 1]);
    }
  }

  /** In every interleaving: the writer receives the queued messages in their order, what it has not received waits,
   *  every frame was queued or counted, and the bytes waiting or held stay within the budget. */
  lemma {:induction false} EveryFrameAccounted(l: Limits, events: seq<Event>, n: nat)
    requires n <= |events|
    ensures Accounted(l, IntakeAfter(l, events, n), Taken(l, events, n), Queued(l, events, n), |Frames(events, n)|)
  {
    var holds := (s: Intake, taken: seq<Message>, queued: seq<Message>, frames: seq<Frame>) =>
        Accounted(l, s, taken, queued, |frames|);
    forall s, taken, queued, frames, e | holds(s, taken, queued, frames)
      ensures holds(Step(l, s, e), taken + TakenBy(s, e), queued + QueuedBy(l, s, e), frames + FramesOf(e))
    {
      StepAccounted(l, s, taken, queued, |frames|, e);
    }
    RunKeeps(l, events, n, holds);
  }

  predicate NoneDropped(s: Intake, frames: seq<Frame>, queued: seq<Message>) {
    s.dropped == 0 <==> AllDecoded(frames) && queued == Messages(frames)
  }

  lemma {:induction false} FramesNext(frames: seq<Frame>, f: Frame)
    ensures AllDecoded(frames + [f]) <==> AllDecoded(frames) && f.decoded.Some?
    ensures AllDecoded(frames + [f]) ==> Messages(frames + [f]) == Messages(frames) + [MessageOf(f)]
  {
    var all := frames + [f];
    assert all[|frames|] == f && forall i :: 0 <= i < |frames| ==> all[i] == frames[i];
  }

  lemma {:induction false} ForwardNoneDropped(l: Limits, s: Intake, frames: seq<Frame>, queued: seq<Message>, f: Frame)
    requires NoneDropped(s, frames, queued) && |queued| <= |frames|
    ensures NoneDropped(Captured(l, s, f), frames + [f], queued + QueuedBy(l, s, Forward(f)))
  {
    FramesNext(frames, f);
    if f.decoded.Some? && HasRoom(l, s, MessageOf(f)) && AllDecoded(frames) {
      AppendSame(queued, Messages(frames), MessageOf(f));
    }
  }

  lemma {:induction false} AppendSame<T>(a: seq<T>, b: seq<T>, x: T)
    ensures a + [x] == b + [x] <==> a == b
  {
    assert (a + [x])[..|a + [x]| - 1] == a && (b + [x])[..|b + [x]| - 1] == b;
  }

  lemma {:induction false} StepNoneDropped(l: Limits, s: Intake, frames: seq<Frame>, queued: seq<Message>, e: Event)
    requires NoneDropped(s, frames, queued) && |queued| <= |frames|
    ensures NoneDropped(Step(l, s, e), frames + FramesOf(e), queued + QueuedBy(l, s, e))
  {
    if e.Forward? {
      ForwardNoneDropped(l, s, frames, queued, e.frame);
    } else {
      assert frames + [] == frames && queued + [] == queued;
    }
  }

  lemma {:induction false} AtMostAllQueued(l: Limits, events: seq<Event>, n: nat)
    requires n <= |events|
    ensures |Queued(l, events, n)| <= |Frames(events, n)|
  {
    EveryFrameAccounted(l, events, n);
  }

  lemma {:induction false} NoneDroppedRun(l: Limits, events: seq<Event>, n: nat)
    requires n <= |events|
    ensures NoneDropped(IntakeAfter(l, events, n), Frames(events, n), Queued(l, events, n))
  {
    if n > 0 {
      NoneDroppedRun(l, events, n - 1);
      AtMostAllQueued(l, events, n - 1);
      StepNoneDropped(l, IntakeAfter(l, events, n - 1), Frames(events, n - 1), Queued(l, events, n - 1), events[n - 1]);
    }
  }

  /** A refused frame was no JSON, or its message found no room at that moment; so nothing is dropped exactly if every
   *  frame came into the queue, in order. */
  lemma {:induction false} NoneDroppedIff(l: Limits, events: seq<Event>)
    ensures IntakeAfter(l, events, |events|).dropped == 0 <==>
      AllDecoded(Frames(events, |events|)) && Queued(l, events, |events|) == Messages(Frames(events, |events|))
  {
    NoneDroppedRun(l, events, |events|);
  }

  /** The queue has been emptied into the writer's rounds, in whatever grouping and order. */
  ghost predicate Fed(l: Limits, events: seq<Event>, rounds: seq<Batch>, last: Batch) {
    multiset(Arrived(rounds, |rounds|) + last.arrivals) == multiset(Queued(l, events, |events|))
  }

  predicate DistinctStamps(frames: seq<Frame>) {
    forall i, j :: 0 <= i < j < |frames| ==> frames[i].num != frames[j].num
  }

  /** A capture that ends well has recorded every forwarded frame: each was JSON and came into the queue, and the store
   *  holds each once, ascending, redacted in a context never lost. */
  lemma {:induction false} OkHoldsEveryFrame(lens: Lens, l: Limits, events: seq<Event>, rounds: seq<Batch>, last: Batch,
                                             counted: bool, closed: bool)
    requires DistinctStamps(Frames(events, |events|)) && Fed(l, events, rounds, last)
    requires Verdict(AtClose(lens, rounds, last), IntakeAfter(l, events, |events|).dropped, counted, closed).0
    ensures var s, frames := AtClose(lens, rounds, last), Frames(events, |events|);
      && AllDecoded(frames) && multiset(s.handed) == multiset(Messages(frames))
      && s.store == Rows(lens, s.handed) && Strict(s.handed) && (lens.active ==> !Lost(lens, s.handed))
  {
    var frames, dropped := Frames(events, |events|), IntakeAfter(l, events, |events|).dropped;
    var all := Arrived(rounds, |rounds|) + last.arrivals;
    assert dropped == 0;
    NoneDroppedIff(l, events);
    SameDistinct(Messages(frames), all);
    OkHoldsAll(lens, rounds, last, dropped, counted, closed);
  }

  lemma {:induction false} SameDistinct(a: seq<Message>, b: seq<Message>)
    requires multiset(a) == multiset(b) && DistinctNums(a)
    ensures DistinctNums(b)
  {
    forall i, j | 0 <= i < j < |b| ensures b[i].num != b[j].num {
      if b[i].num == b[j].num {
        TwoOf(b, i, j);
        assert b[i] in multiset(a) && b[j] in multiset(a);
        var x :| 0 <= x < |a| && a[x] == b[i];
        var y :| 0 <= y < |a| && a[y] == b[j];
        assert x == y;
        AtMostOne(a, x);
      }
    }
  }

  lemma {:induction false} TwoOf(b: seq<Message>, i: nat, j: nat)
    requires i < j < |b|
    ensures b[i] == b[j] ==> multiset(b)[b[i]] >= 2
  {
    assert b == b[..j] + b[j..];
    assert b[i] in b[..j] && b[j] in b[j..] by { assert b[..j][i] == b[i] && b[j..][0] == b[j]; }
  }

  lemma {:induction false} AtMostOne(a: seq<Message>, x: nat)
    requires x < |a| && DistinctNums(a)
    ensures multiset(a)[a[x]] == 1
  {
    assert a == a[..x] + [a[x]] + a[x + 1..];
    assert a[x] !in a[..x] && a[x] !in a[x + 1..];
  }

  /** However a capture ends, the drops recorded for it are the frames that are not in the store, and one more if a
   *  loss of context was reported. */
  lemma {:induction false} DropsCoverFrames(lens: Lens, l: Limits, events: seq<Event>, rounds: seq<Batch>, last: Batch,
                                            closed: bool)
    requires Fed(l, events, rounds, last)
    ensures var s, intake := AtClose(lens, rounds, last), IntakeAfter(l, events, |events|);
      Verdict(s, intake.dropped, true, closed).1 ==
        |Frames(events, |events|)| - |s.store| + (if s.reported then 1 else 0)
  {
    EveryFrameAccounted(l, events, |events|);
    DropsCover(lens, rounds, last, IntakeAfter(l, events, |events|).dropped, closed);
    var all := Arrived(rounds, |rounds|) + last.arrivals;
    assert |multiset(all)| == |multiset(Queued(l, events, |events|))|;
  }
}
