/** The byte budget of the storage queue, reserved by compare-and-swap loops and returned on drop. */
module Budget {
  /** The counter is a machine word: additions and subtractions wrap around. */
  const WORD: nat := 0x1_0000_0000_0000_0000

  function Add(a: nat, b: nat): nat { (a + b) % WORD }

  function Sub(a: nat, b: nat): nat { (a - b) % WORD }

  /** Where a thread stands in `try_reserve`. */
  datatype Thread =
    | Idle
    | Loading(bytes: nat)
    | Looping(bytes: nat, current: nat)
    | Refused(bytes: nat)

  /** The counter, the threads, and the reservations that have not been dropped. */
  datatype State = State(counter: nat, threads: map<nat, Thread>, live: map<nat, nat>)

  function At(s: State, t: nat): Thread { if t in s.threads then s.threads[t] else Idle }

  /** One atomic action of thread `t`. */
  datatype Action =
    | Enter(t: nat, bytes: nat)
    | Load(t: nat)
    | Refuse(t: nat)
    | Swap(t: nat, reservation: nat)
    | Miss(t: nat)
    | Leave(t: nat)
    | Drop(reservation: nat)

  predicate Enabled(s: State, a: Action, max: nat) {
    match a
    case Enter(t, bytes) => At(s, t).Idle? && bytes < WORD
    case Load(t) => At(s, t).Loading?
    case Refuse(t) => At(s, t).Looping? && At(s, t).current > max - At(s, t).bytes
    case Swap(t, reservation) =>
      At(s, t).Looping? && At(s, t).current <= max - At(s, t).bytes && s.counter == At(s, t).current
        && reservation !in s.live
    case Miss(t) => At(s, t).Looping? && At(s, t).current <= max - At(s, t).bytes
    case Leave(t) => At(s, t).Refused?
    case Drop(reservation) => reservation in s.live
  }

  /** `Enter` returns at once when the request exceeds the maximum; `Miss` is a failed swap, spurious or not, and
   *  observes the counter. */
  function Next(s: State, a: Action, max: nat): State
    requires Enabled(s, a, max)
  {
    match a
    case Enter(t, bytes) => s.(threads := s.threads[t := if bytes > max then Refused(bytes) else Loading(bytes)])
    case Load(t) => s.(threads := s.threads[t := Looping(At(s, t).bytes, s.counter)])
    case Refuse(t) => s.(threads := s.threads[t := Refused(At(s, t).bytes)])
    case Swap(t, reservation) =>
      State(Add(At(s, t).current, At(s, t).bytes), s.threads[t := Idle], s.live[reservation := At(s, t).bytes])
    case Miss(t) => s.(threads := s.threads[t := Looping(At(s, t).bytes, s.counter)])
    case Leave(t) => s.(threads := s.threads[t := Idle])
    case Drop(reservation) => State(Sub(s.counter, s.live[reservation]), s.threads, s.live - {reservation})
  }

  const START := State(0, map[], map[])

  /** A run: any interleaving of enabled actions. */
  predicate Run(states: seq<State>, actions: seq<Action>, max: nat) {
    && |states| == |actions| + 1 && states[0] == START
    && forall i :: 0 <= i < |actions| ==>
      Enabled(states[i], actions[i], max) && states[i + 1] == Next(states[i], actions[i], max)
  }

  // ---------------------------------------------------------------- the bytes held

  ghost function Total(live: map<nat, nat>): nat {
    if live == map[] then 0 else
    var r :| r in live;
    live[r] + Total(live - {r})
  }

  lemma {:induction false} TotalSplit(live: map<nat, nat>, r: nat)
    requires r in live
    ensures Total(live) == live[r] + Total(live - {r})
    decreases |live|
  {
    var k :| k in live && Total(live) == live[k] + Total(live - {k});
    if k != r {
      TotalSplit(live - {k}, r);
      TotalSplit(live - {r}, k);
      assert live - {k} - {r} == live - {r} - {k};
    }
  }

  lemma {:induction false} TotalAdd(live: map<nat, nat>, r: nat, bytes: nat)
    requires r !in live
    ensures Total(live[r := bytes]) == Total(live) + bytes
  {
    TotalSplit(live[r := bytes], r);
    assert live[r := bytes] - {r} == live;
  }

  // ---------------------------------------------------------------- safety

  /** The counter is the sum of the live reservations, and within the maximum; a thread in the loop asks for no more
   *  than that. */
  ghost predicate Inv(s: State, max: nat) {
    && s.counter == Total(s.live) <= max
    && forall t :: t in s.threads && (s.threads[t].Loading? || s.threads[t].Looping?) ==> s.threads[t].bytes <= max
  }

  /** No action overflows or underflows the counter, and every action keeps the invariant. */
  lemma {:induction false} StepSafe(s: State, a: Action, max: nat)
    requires Inv(s, max) && Enabled(s, a, max) && max < WORD
    ensures Inv(Next(s, a, max), max)
    ensures a.Swap? ==> Next(s, a, max).counter == s.counter + At(s, a.t).bytes
    ensures a.Drop? ==> Next(s, a, max).counter == s.counter - s.live[a.reservation]
  {
    match a
    case Swap(t, reservation) => TotalAdd(s.live, reservation, At(s, t).bytes);
    case Drop(reservation) => TotalSplit(s.live, reservation);
    case _ =>
  }

  /** In every interleaving the counter equals the bytes of the live reservations and never exceeds the maximum. */
  lemma {:induction false} RunSafe(states: seq<State>, actions: seq<Action>, max: nat, n: nat)
    requires Run(states, actions, max) && max < WORD && n < |states|
    ensures Inv(states[n], max)
  {
    if n > 0 {
      RunSafe(states, actions, max, n - 1);
      StepSafe(states[n - 1], actions[n - 1], max);
    }
  }

  // ---------------------------------------------------------------- refusals

  /** From `k` to `n` thread `t` is in one call that asks for the bytes. */
  predicate Asking(states: seq<State>, t: nat, bytes: nat, k: nat, n: nat)
    requires k <= n < |states|
  {
    forall i :: k <= i <= n ==>
      At(states[i], t) == Loading(bytes) || (At(states[i], t).Looping? && At(states[i], t).bytes == bytes)
  }

  /** What a thread in the loop compares with was the counter at some moment of its call. */
  lemma {:induction false} CurrentWasCounter(states: seq<State>, actions: seq<Action>, max: nat, t: nat, n: nat)
    returns (k: nat)
    requires Run(states, actions, max) && n < |states| && At(states[n], t).Looping?
    ensures k <= n && states[k].counter == At(states[n], t).current && Asking(states, t, At(states[n], t).bytes, k, n)
  {
    var a, s := actions[n - 1], states[n - 1];
    if (a.Load? || a.Miss?) && a.t == t {
      k := n - 1;
    } else {
      assert At(states[n], t) == At(s, t);
      k := CurrentWasCounter(states, actions, max, t, n - 1);
    }
  }

  /** A refusal is justified: the request exceeds the maximum, or at some moment of the call the live reservations
   *  left no room for it. */
  lemma {:induction false} RefusalJustified(states: seq<State>, actions: seq<Action>, max: nat, t: nat, n: nat)
    returns (k: nat)
    requires Run(states, actions, max) && max < WORD && n < |actions|
    requires At(states[n + 1], t).Refused? && !At(states[n], t).Refused?
    ensures var bytes := At(states[n + 1], t).bytes;
      bytes > max || (k <= n && Total(states[k].live) + bytes > max && Asking(states, t, bytes, k, n))
  {
    k := 0;
    if actions[n] == Refuse(t) {
      k := CurrentWasCounter(states, actions, max, t, n);
      RunSafe(states, actions, max, k);
    }
  }

  /** A grant takes effect in one step, when the bytes fit beside the live reservations, and only then do they
   *  change. */
  lemma {:induction false} GrantFits(states: seq<State>, actions: seq<Action>, max: nat, n: nat)
    requires Run(states, actions, max) && max < WORD && n < |actions| && actions[n].Swap?
    ensures var bytes := At(states[n], actions[n].t).bytes;
      Total(states[n].live) + bytes <= max && states[n + 1].live == states[n].live[actions[n].reservation := bytes]
  {
    RunSafe(states, actions, max, n);
  }
}
