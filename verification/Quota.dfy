/** Replaying token debits against a token bucket. */
module Quota {
  import opened Json
  import opened Protocol
  import opened Sorting

  // ---------------------------------------------------------------- debits

  datatype TokenSource = Reported | EstimatedFromBytes

  datatype Debit = Debit(callId: string, nanos: int, tokens: nat, source: TokenSource) {
    function At(): real { nanos as real / 1_000_000_000.0 }
  }

  function AsU64(v: Option<Json>): Option<nat> {
    if v.Some? && v.value.Num? && v.value.n.Int? && 0 <= v.value.n.i <= U64_MAX then Some(v.value.n.i) else None
  }

  function Max(a: nat, b: nat): nat { if a < b then b else a }

  /** `usage.total_tokens`, at the top or under `result`; failing both a quarter of the bytes, and at least ten. */
  function TokenCount(m: StoredMessage): (nat, TokenSource) {
    var top := AsU64(Child(Child(m.payload, "usage"), "total_tokens"));
    var nested := AsU64(Child(Child(Child(m.payload, "result"), "usage"), "total_tokens"));
    if top.Some? then (top.value, Reported)
    else if nested.Some? then (nested.value, Reported)
    else (Max(m.payloadBytes / 4, 10), EstimatedFromBytes)
  }

  predicate Debits(m: StoredMessage) { m.fields.method_.Some? || m.fields.tool.Some? || m.fields.kind == "response" }

  function DebitOf(m: StoredMessage): Debit {
    var (tokens, source) := TokenCount(m);
    Debit(if m.fields.rpcId.Some? then m.fields.rpcId.value else "msg_" + Decimal(m.num), m.ts, tokens, source)
  }

  function AllDebits(messages: seq<StoredMessage>): seq<Debit> {
    if |messages| == 0 then [] else
    var last := messages[|messages| - 1];
    AllDebits(messages[..|messages| - 1]) + if Debits(last) then [DebitOf(last)] else []
  }

  const NANOS: Debit -> int := (d: Debit) => d.nanos

  /** The debits of a session in time order, those of one instant as recorded. */
  function Extracted(messages: seq<StoredMessage>): seq<Debit> { Sorted(AllDebits(messages), NANOS) }

  predicate Chronological(debits: seq<Debit>) {
    forall i, j :: 0 <= i < j < |debits| ==> debits[i].At() <= debits[j].At()
  }

  lemma {:induction false} ExtractedChronological(messages: seq<StoredMessage>)
    ensures Chronological(Extracted(messages))
  {
    var debits := Extracted(messages);
    SortIsStable(AllDebits(messages), NANOS);
    forall i, j | 0 <= i < j < |debits| ensures debits[i].At() <= debits[j].At() {
      assert NANOS(debits[i]) <= NANOS(debits[j]);
    }
  }

  // ---------------------------------------------------------------- the bucket

  datatype Level = Level(tokens: real, lastRefill: Option<real>)

  function Min(a: real, b: real): real { if a <= b then a else b }

  function Gained(elapsed: real, rate: real): real { elapsed * rate }

  function Refilled(s: Level, now: real, rate: real, capacity: real): Level {
    Level(if s.lastRefill.Some? && now > s.lastRefill.value
          then Min(s.tokens + Gained(now - s.lastRefill.value, rate), capacity) else s.tokens, Some(now))
  }

  function Consumed(s: Level, amount: real, now: real, rate: real, capacity: real): (Level, bool) {
    var t := Refilled(s, now, rate, capacity);
    if t.tokens >= amount then (t.(tokens := t.tokens - amount), true) else (t, false)
  }

  class TokenBucket {
    const rate: real
    const capacity: real
    var tokens: real
    var lastRefill: Option<real>

    function Now(): Level
      reads this
    {
      Level(tokens, lastRefill)
    }

    /** A bucket starts full. */
    constructor (rate: real, capacity: real)
      ensures this.rate == rate && this.capacity == capacity && Now() == Level(capacity, None)
    {
      this.rate, this.capacity, tokens, lastRefill := rate, capacity, capacity, None;
    }

    method Refill(now: real)
      modifies this
      ensures Now() == Refilled(old(Now()), now, rate, capacity)
    {
      if lastRefill.Some? && now > lastRefill.value {
        tokens := Min(tokens + Gained(now - lastRefill.value, rate), capacity);
      }
      lastRefill := Some(now);
    }

    method TryConsume(amount: real, now: real) returns (admitted: bool)
      modifies this
      ensures (Now(), admitted) == Consumed(old(Now()), amount, now, rate, capacity)
    {
      Refill(now);
      admitted := tokens >= amount;
      if admitted { tokens := tokens - amount; }
    }
  }

  // ---------------------------------------------------------------- the simulation

  function LevelBefore(debits: seq<Debit>, rate: real, capacity: real, n: nat): Level
    requires n <= |debits|
  {
    if n == 0 then Level(capacity, None) else
    Consumed(LevelBefore(debits, rate, capacity, n - 1), debits[n - 1].tokens as real, debits[n - 1].At(), rate,
             capacity).0
  }

  predicate Admitted(debits: seq<Debit>, rate: real, capacity: real, n: nat)
    requires n < |debits|
  {
    Consumed(LevelBefore(debits, rate, capacity, n), debits[n].tokens as real, debits[n].At(), rate, capacity).1
  }

  function Violations(debits: seq<Debit>, rate: real, capacity: real, n: nat): nat
    requires n <= |debits|
  {
    if n == 0 then 0 else
    Violations(debits, rate, capacity, n - 1) + if Admitted(debits, rate, capacity, n - 1) then 0 else 1
  }

  function TotalTokens(debits: seq<Debit>, n: nat): nat
    requires n <= |debits|
  {
    if n == 0 then 0 else TotalTokens(debits, n - 1) + debits[n - 1].tokens
  }

  function SaturatingAdd(a: nat, b: nat): nat { if a + b > U64_MAX then U64_MAX else a + b }

  datatype Report = Report(ok: bool, firstViolation: Option<nat>, violations: nat, totalTokens: nat)

  method SimulateEvents(debits: seq<Debit>, rate: real, capacity: real) returns (r: Report)
    ensures r.violations == Violations(debits, rate, capacity, |debits|) && (r.ok <==> r.violations == 0)
    ensures r.ok <==> r.firstViolation.None?
    ensures r.firstViolation.Some? ==>
        r.firstViolation.value < |debits| && !Admitted(debits, rate, capacity, r.firstViolation.value)
    ensures forall j :: 0 <= j < |debits| && (r.firstViolation.Some? ==> j < r.firstViolation.value) ==>
        Admitted(debits, rate, capacity, j)
    ensures r.totalTokens == if TotalTokens(debits, |debits|) > U64_MAX then U64_MAX else TotalTokens(debits, |debits|)
  {
    var bucket := new TokenBucket(rate, capacity);
    var violations, totalTokens := 0, 0;
    var first: Option<nat> := None;
    for i := 0 to |debits|
      invariant bucket.rate == rate && bucket.capacity == capacity
        && bucket.Now() == LevelBefore(debits, rate, capacity, i)
      invariant violations == Violations(debits, rate, capacity, i) && (violations == 0 <==> first.None?)
      invariant first.Some? ==> first.value < i && !Admitted(debits, rate, capacity, first.value)
      invariant forall j :: 0 <= j < i && (first.Some? ==> j < first.value) ==> Admitted(debits, rate, capacity, j)
      invariant totalTokens == if TotalTokens(debits, i) > U64_MAX then U64_MAX else TotalTokens(debits, i)
    {
      totalTokens := SaturatingAdd(totalTokens, debits[i].tokens);
      var admitted := bucket.TryConsume(debits[i].tokens as real, debits[i].At());
      if !admitted {
        violations := violations + 1;
        if first.None? { first := Some(i); }
      }
    }
    r := Report(violations == 0, first, violations, totalTokens);
  }

  // ---------------------------------------------------------------- the arrival curve

  /** The tokens of the debits `i..j`. */
  function Window(debits: seq<Debit>, i: nat, j: nat): int
    requires i <= j <= |debits|
  {
    TotalTokens(debits, j) - TotalTokens(debits, i)
  }

  /** The debits `i..=j` fit under the arrival curve of the bucket: a burst of the capacity, then the rate. */
  predicate Conforms(debits: seq<Debit>, rate: real, capacity: real, i: nat, j: nat)
    requires i <= j < |debits|
  {
    Window(debits, i, j + 1) as real <= capacity + Gained(debits[j].At() - debits[i].At(), rate)
  }

  predicate ConformsAt(debits: seq<Debit>, rate: real, capacity: real, j: nat)
    requires j < |debits|
  {
    forall i :: 0 <= i <= j ==> Conforms(debits, rate, capacity, i, j)
  }

  /** What is left at debit `j` of a bucket that was full at debit `i`. */
  function Slack(debits: seq<Debit>, rate: real, capacity: real, i: nat, j: nat): real
    requires i <= j < |debits|
  {
    capacity + Gained(debits[j].At() - debits[i].At(), rate) - Window(debits, i, j) as real
  }

  lemma {:induction false} Distribute(x: real, y: real, r: real)
    ensures Gained(x + y, r) == Gained(x, r) + Gained(y, r)
  {
  }

  lemma {:induction false} SlackNext(debits: seq<Debit>, rate: real, capacity: real, i: nat, j: nat)
    requires i <= j && j + 1 < |debits|
    ensures Slack(debits, rate, capacity, i, j + 1) ==
      Slack(debits, rate, capacity, i, j) + Gained(debits[j + 1].At() - debits[j].At(), rate) - debits[j].tokens as real
  {
    var x, y := debits[j].At() - debits[i].At(), debits[j + 1].At() - debits[j].At();
    Distribute(x, y, rate);
    assert debits[j + 1].At() - debits[i].At() == x + y;
  }

  /** What the bucket holds when debit `j` asks. */
  function LevelAt(debits: seq<Debit>, rate: real, capacity: real, j: nat): real
    requires j < |debits|
  {
    Refilled(LevelBefore(debits, rate, capacity, j), debits[j].At(), rate, capacity).tokens
  }

  /** Refilling from a level within the capacity is the same whether or not time has passed. */
  lemma {:induction false} RefillOf(tokens: real, last: real, now: real, rate: real, capacity: real)
    requires tokens <= capacity && last <= now
    ensures Refilled(Level(tokens, Some(last)), now, rate, capacity).tokens ==
      Min(tokens + Gained(now - last, rate), capacity)
  {
    if now == last {
      assert now - last == 0.0;
      Zero(rate);
    }
  }

  lemma {:induction false} Zero(r: real)
    ensures Gained(0.0, r) == 0.0
  {
  }

  lemma {:induction false} LevelNext(debits: seq<Debit>, rate: real, capacity: real, j: nat)
    requires Chronological(debits) && j + 1 < |debits| && Admitted(debits, rate, capacity, j)
    requires LevelAt(debits, rate, capacity, j) <= capacity
    ensures LevelAt(debits, rate, capacity, j + 1) ==
      Min(LevelAt(debits, rate, capacity, j) - debits[j].tokens as real
          + Gained(debits[j + 1].At() - debits[j].At(), rate), capacity)
  {
    var level := LevelAt(debits, rate, capacity, j) - debits[j].tokens as real;
    assert LevelBefore(debits, rate, capacity, j + 1) == Level(level, Some(debits[j].At()));
    assert debits[j].At() <= debits[j + 1].At();
    RefillOf(level, debits[j].At(), debits[j + 1].At(), rate, capacity);
  }

  /** The least slack moves on with the level. */
  lemma {:induction false} LeastSlackNext(debits: seq<Debit>, rate: real, capacity: real, j: nat, k: nat, level: real,
                                          next: real, w: nat)
    returns (v: nat)
    requires j + 1 == k < |debits| && w <= j && level == Slack(debits, rate, capacity, w, j)
    requires forall i :: 0 <= i <= j ==> level <= Slack(debits, rate, capacity, i, j)
    requires next == Min(level - debits[j].tokens as real + Gained(debits[j + 1].At() - debits[j].At(), rate), capacity)
    ensures v <= k && next == Slack(debits, rate, capacity, v, k)
    ensures forall i :: 0 <= i <= k ==> next <= Slack(debits, rate, capacity, i, k)
  {
    assert Slack(debits, rate, capacity, k, k) == capacity;
    forall i | 0 <= i <= k ensures next <= Slack(debits, rate, capacity, i, k) {
      if i <= j { SlackNext(debits, rate, capacity, i, j); }
    }
    SlackNext(debits, rate, capacity, w, j);
    v := if next == capacity then k else w;
  }

  /** As long as every debit was admitted, the level is the least slack over all starting points. */
  lemma {:induction false} LevelIsLeastSlack(debits: seq<Debit>, rate: real, capacity: real, j: nat) returns (w: nat)
    requires Chronological(debits) && j < |debits|
    requires forall k :: 0 <= k < j ==> Admitted(debits, rate, capacity, k)
    ensures w <= j && LevelAt(debits, rate, capacity, j) == Slack(debits, rate, capacity, w, j)
    ensures forall i :: 0 <= i <= j ==> LevelAt(debits, rate, capacity, j) <= Slack(debits, rate, capacity, i, j)
  {
    if j == 0 {
      w := 0;
    } else {
      var k := j - 1;
      var u := LevelIsLeastSlack(debits, rate, capacity, k);
      assert Slack(debits, rate, capacity, k, k) == capacity;
      LevelNext(debits, rate, capacity, k);
      w := LeastSlackNext(debits, rate, capacity, k, j, LevelAt(debits, rate, capacity, k),
                          LevelAt(debits, rate, capacity, j), u);
    }
  }

  lemma {:induction false} AdmittedIffConforms(debits: seq<Debit>, rate: real, capacity: real, j: nat)
    requires Chronological(debits) && j < |debits|
    requires forall k :: 0 <= k < j ==> Admitted(debits, rate, capacity, k)
    ensures Admitted(debits, rate, capacity, j) <==> ConformsAt(debits, rate, capacity, j)
  {
    var w := LevelIsLeastSlack(debits, rate, capacity, j);
    assert forall i :: 0 <= i <= j ==>
      (Conforms(debits, rate, capacity, i, j) <==> debits[j].tokens as real <= Slack(debits, rate, capacity, i, j));
  }

  /** Up to any debit, every one was admitted exactly when every window fits under the arrival curve. */
  lemma {:induction false} AllAdmittedIff(debits: seq<Debit>, rate: real, capacity: real, n: nat)
    requires Chronological(debits) && n <= |debits|
    ensures (forall j :: 0 <= j < n ==> Admitted(debits, rate, capacity, j)) <==>
      (forall j :: 0 <= j < n ==> ConformsAt(debits, rate, capacity, j))
  {
    if n > 0 {
      AllAdmittedIff(debits, rate, capacity, n - 1);
      if forall j :: 0 <= j < n - 1 ==> Admitted(debits, rate, capacity, j) {
        AdmittedIffConforms(debits, rate, capacity, n - 1);
      }
    }
  }

  /** The first violation is at the least debit that ends a window above the arrival curve. */
  lemma {:induction false} FirstViolationIff(debits: seq<Debit>, rate: real, capacity: real, j: nat)
    requires Chronological(debits) && j < |debits|
    ensures (!Admitted(debits, rate, capacity, j) && forall k :: 0 <= k < j ==> Admitted(debits, rate, capacity, k))
      <==> (!ConformsAt(debits, rate, capacity, j) && forall k :: 0 <= k < j ==> ConformsAt(debits, rate, capacity, k))
  {
    AllAdmittedIff(debits, rate, capacity, j);
    AllAdmittedIff(debits, rate, capacity, j + 1);
    assert (forall k :: 0 <= k < j + 1 ==> Admitted(debits, rate, capacity, k)) <==>
      Admitted(debits, rate, capacity, j) && (forall k :: 0 <= k < j ==> Admitted(debits, rate, capacity, k));
    assert (forall k :: 0 <= k < j + 1 ==> ConformsAt(debits, rate, capacity, k)) <==>
      ConformsAt(debits, rate, capacity, j) && (forall k :: 0 <= k < j ==> ConformsAt(debits, rate, capacity, k));
  }

  // ---------------------------------------------------------------- two buckets at once

  /** Both buckets are refilled; both are charged, or neither. */
  function DualConsumed(s: (Level, Level), tokens: real, requests: real, now: real, rates: (real, real),
                        caps: (real, real))
    : ((Level, Level), bool)
  {
    var t, r := Refilled(s.0, now, rates.0, caps.0), Refilled(s.1, now, rates.1, caps.1);
    if tokens > t.tokens || requests > r.tokens then ((t, r), false)
    else ((t.(tokens := t.tokens - tokens), r.(tokens := r.tokens - requests)), true)
  }

  class DualTokenBucket {
    const tokenBucket: TokenBucket
    const reqBucket: TokenBucket

    ghost predicate Valid() { tokenBucket != reqBucket }

    ghost function Now(): (Level, Level)
      reads tokenBucket, reqBucket
    {
      (tokenBucket.Now(), reqBucket.Now())
    }

    constructor (tokenRate: real, tokenCapacity: real, reqRate: real, reqCapacity: real)
      ensures Valid() && fresh(tokenBucket) && fresh(reqBucket)
      ensures Now() == (Level(tokenCapacity, None), Level(reqCapacity, None))
      ensures tokenBucket.rate == tokenRate && tokenBucket.capacity == tokenCapacity
      ensures reqBucket.rate == reqRate && reqBucket.capacity == reqCapacity
    {
      tokenBucket := new TokenBucket(tokenRate, tokenCapacity);
      reqBucket := new TokenBucket(reqRate, reqCapacity);
    }

    method TryConsume(tokens: real, requests: real, now: real) returns (admitted: bool)
      requires Valid()
      modifies tokenBucket, reqBucket
      ensures (Now(), admitted) == DualConsumed(old(Now()), tokens, requests, now, (tokenBucket.rate, reqBucket.rate),
                                                (tokenBucket.capacity, reqBucket.capacity))
    {
      tokenBucket.Refill(now);
      reqBucket.Refill(now);
      if tokens > tokenBucket.tokens || requests > reqBucket.tokens { return false; }
      tokenBucket.tokens := tokenBucket.tokens - tokens;
      reqBucket.tokens := reqBucket.tokens - requests;
      admitted := true;
    }
  }

  /** The same moments in two lists of debits: tokens in one, requests in the other. */
  predicate Paired(tokens: seq<Debit>, requests: seq<Debit>) {
    |tokens| == |requests| && forall i :: 0 <= i < |tokens| ==> tokens[i].At() == requests[i].At()
  }

  function DualStep(tokens: seq<Debit>, requests: seq<Debit>, rates: (real, real), caps: (real, real), n: nat)
    : ((Level, Level), bool)
    requires Paired(tokens, requests) && n < |tokens|
    decreases n, 1
  {
    DualConsumed(DualBefore(tokens, requests, rates, caps, n), tokens[n].tokens as real, requests[n].tokens as real,
                 tokens[n].At(), rates, caps)
  }

  function DualBefore(tokens: seq<Debit>, requests: seq<Debit>, rates: (real, real), caps: (real, real),
                      n: nat): (Level, Level)
    requires Paired(tokens, requests) && n <= |tokens|
    decreases n, 0
  {
    if n == 0 then (Level(caps.0, None), Level(caps.1, None)) else DualStep(tokens, requests, rates, caps, n - 1).0
  }

  predicate DualAdmitted(tokens: seq<Debit>, requests: seq<Debit>, rates: (real, real), caps: (real, real), n: nat)
    requires Paired(tokens, requests) && n < |tokens|
  {
    DualStep(tokens, requests, rates, caps, n).1
  }

  lemma {:induction false} DualLast(tokens: seq<Debit>, requests: seq<Debit>, rates: (real, real), caps: (real, real),
                                    n: nat)
    requires Paired(tokens, requests) && n < |tokens|
    requires DualBefore(tokens, requests, rates, caps, n) ==
      (LevelBefore(tokens, rates.0, caps.0, n), LevelBefore(requests, rates.1, caps.1, n))
    ensures DualAdmitted(tokens, requests, rates, caps, n) <==>
      Admitted(tokens, rates.0, caps.0, n) && Admitted(requests, rates.1, caps.1, n)
    ensures DualAdmitted(tokens, requests, rates, caps, n) ==>
      DualBefore(tokens, requests, rates, caps, n + 1) ==
        (LevelBefore(tokens, rates.0, caps.0, n + 1), LevelBefore(requests, rates.1, caps.1, n + 1))
  {
    var before := DualBefore(tokens, requests, rates, caps, n);
    assert tokens[n].At() == requests[n].At();
    assert DualBefore(tokens, requests, rates, caps, n + 1) == DualStep(tokens, requests, rates, caps, n).0;
  }

  /** Until the first refusal the two buckets move as if each were alone. */
  lemma {:induction false} DualFollows(tokens: seq<Debit>, requests: seq<Debit>, rates: (real, real),
                                       caps: (real, real), n: nat)
    requires Paired(tokens, requests) && n <= |tokens|
    ensures (forall j :: 0 <= j < n ==> DualAdmitted(tokens, requests, rates, caps, j)) <==>
      (forall j :: 0 <= j < n ==> Admitted(tokens, rates.0, caps.0, j) && Admitted(requests, rates.1, caps.1, j))
    ensures (forall j :: 0 <= j < n ==> DualAdmitted(tokens, requests, rates, caps, j)) ==>
      DualBefore(tokens, requests, rates, caps, n) ==
        (LevelBefore(tokens, rates.0, caps.0, n), LevelBefore(requests, rates.1, caps.1, n))
  {
    if n > 0 {
      var last := n - 1;
      DualFollows(tokens, requests, rates, caps, last);
      if forall j :: 0 <= j < last ==> DualAdmitted(tokens, requests, rates, caps, j) {
        DualLast(tokens, requests, rates, caps, last);
        assert DualAdmitted(tokens, requests, rates, caps, last) <==>
          Admitted(tokens, rates.0, caps.0, last) && Admitted(requests, rates.1, caps.1, last);
      }
    }
  }

  /** A run passes two buckets at once exactly when each of its two loads fits under its own arrival curve. */
  lemma {:induction false} DualOkIff(tokens: seq<Debit>, requests: seq<Debit>, rates: (real, real), caps: (real, real))
    requires Paired(tokens, requests) && Chronological(tokens)
    ensures (forall j :: 0 <= j < |tokens| ==> DualAdmitted(tokens, requests, rates, caps, j)) <==>
      (forall j :: 0 <= j < |tokens| ==>
         ConformsAt(tokens, rates.0, caps.0, j) && ConformsAt(requests, rates.1, caps.1, j))
  {
    assert Chronological(requests);
    DualFollows(tokens, requests, rates, caps, |tokens|);
    AllAdmittedIff(tokens, rates.0, caps.0, |tokens|);
    AllAdmittedIff(requests, rates.1, caps.1, |tokens|);
  }

  lemma {:induction false} ViolationsIff(debits: seq<Debit>, rate: real, capacity: real, n: nat)
    requires n <= |debits|
    ensures Violations(debits, rate, capacity, n) == 0 <==>
      forall j :: 0 <= j < n ==> Admitted(debits, rate, capacity, j)
  {
    if n > 0 { ViolationsIff(debits, rate, capacity, n - 1); }
  }

  predicate Ok(debits: seq<Debit>, rate: real, capacity: real) { Violations(debits, rate, capacity, |debits|) == 0 }

  /** The simulation passes exactly when no window of debits exceeds the capacity plus the rate times its duration. */
  lemma {:induction false} OkIff(debits: seq<Debit>, rate: real, capacity: real)
    requires Chronological(debits)
    ensures Ok(debits, rate, capacity) <==>
      forall i, j :: 0 <= i <= j < |debits| ==> Conforms(debits, rate, capacity, i, j)
  {
    ViolationsIff(debits, rate, capacity, |debits|);
    AllAdmittedIff(debits, rate, capacity, |debits|);
    if Ok(debits, rate, capacity) {
      forall i, j | 0 <= i <= j < |debits| ensures Conforms(debits, rate, capacity, i, j) {
        assert ConformsAt(debits, rate, capacity, j);
      }
    }
  }

  lemma {:induction false} ProductMonotone(a: real, b: real, x: real)
    requires a <= b && 0.0 <= x
    ensures Gained(x, a) <= Gained(x, b)
  {
    assert x * (b - a) >= 0.0;
    assert x * (b - a) == x * b - x * a;
  }

  lemma {:induction false} ConformsMonotone(debits: seq<Debit>, rate: real, capacity: real, faster: real, larger: real,
                                            i: nat, j: nat)
    requires i <= j < |debits| && debits[i].At() <= debits[j].At() && rate <= faster && capacity <= larger
    requires Conforms(debits, rate, capacity, i, j)
    ensures Conforms(debits, faster, larger, i, j)
  {
    ProductMonotone(rate, faster, debits[j].At() - debits[i].At());
  }

  lemma {:induction false} OkMonotone(debits: seq<Debit>, rate: real, capacity: real, faster: real, larger: real)
    requires Chronological(debits) && rate <= faster && capacity <= larger && Ok(debits, rate, capacity)
    ensures Ok(debits, faster, larger)
  {
    OkIff(debits, rate, capacity);
    OkIff(debits, faster, larger);
    forall i, j | 0 <= i <= j < |debits| ensures Conforms(debits, faster, larger, i, j) {
      assert debits[i].At() <= debits[j].At();
      ConformsMonotone(debits, rate, capacity, faster, larger, i, j);
    }
  }

  predicate Equal(debits: seq<Debit>, tokens: nat) { forall i :: 0 <= i < |debits| ==> debits[i].tokens == tokens }

  /** Refilling keeps a bucket from falling behind by more than it already was. */
  lemma {:induction false} RefillKeepsGap(s: Level, t: Level, now: real, rate: real, capacity: real, faster: real,
                                          larger: real, gap: real)
    requires rate <= faster && capacity <= larger && 0.0 <= gap && s.lastRefill == t.lastRefill
      && t.tokens >= s.tokens - gap
    ensures Refilled(t, now, faster, larger).tokens >= Refilled(s, now, rate, capacity).tokens - gap
  {
    if s.lastRefill.Some? && now > s.lastRefill.value {
      var elapsed := now - s.lastRefill.value;
      ProductMonotone(rate, faster, elapsed);
      var slow, fast := Gained(elapsed, rate), Gained(elapsed, faster);
      assert slow <= fast;
      MinGap(s.tokens + slow, capacity, t.tokens + fast, larger, gap);
    }
  }

  lemma {:induction false} MinGap(a: real, c: real, b: real, d: real, gap: real)
    requires 0.0 <= gap && b >= a - gap && d >= c
    ensures Min(b, d) >= Min(a, c) - gap
  {
  }

  /** `n` debits of one size. */
  function Times(n: nat, tokens: nat): real { if n == 0 then 0.0 else Times(n - 1, tokens) + tokens as real }

  lemma {:induction false} TimesPositive(n: nat, tokens: nat)
    ensures 0.0 <= Times(n, tokens)
  {
    if n > 0 { TimesPositive(n - 1, tokens); }
  }

  /** The better bucket has refused no more of the first debits, and is behind by no more than it has admitted in
   *  excess. */
  predicate Ahead(s: Level, t: Level, violations: nat, fewer: nat, tokens: nat) {
    && fewer <= violations && s.lastRefill == t.lastRefill
    && t.tokens >= s.tokens - Times(violations - fewer, tokens)
  }

  lemma {:induction false} StaysAhead(s: Level, t: Level, v: nat, f: nat, d: Debit, rate: real, capacity: real,
                                      faster: real, larger: real)
    requires rate <= faster && capacity <= larger && Ahead(s, t, v, f, d.tokens)
    ensures var (s', inS) := Consumed(s, d.tokens as real, d.At(), rate, capacity);
      var (t', inT) := Consumed(t, d.tokens as real, d.At(), faster, larger);
      && (inS && !inT ==> f < v)
      && Ahead(s', t', v + (if inS then 0 else 1), f + (if inT then 0 else 1), d.tokens)
  {
    TimesPositive(v - f, d.tokens);
    RefillKeepsGap(s, t, d.At(), rate, capacity, faster, larger, Times(v - f, d.tokens));
    ChargeKeepsAhead(Refilled(s, d.At(), rate, capacity), Refilled(t, d.At(), faster, larger), v, f, d.tokens);
  }

  function Charged(s: Level, tokens: nat): Level {
    if s.tokens >= tokens as real then s.(tokens := s.tokens - tokens as real) else s
  }

  lemma {:induction false} ChargeKeepsAhead(s: Level, t: Level, v: nat, f: nat, tokens: nat)
    requires Ahead(s, t, v, f, tokens)
    ensures var inS, inT := s.tokens >= tokens as real, t.tokens >= tokens as real;
      && (inS && !inT ==> f < v)
      && Ahead(Charged(s, tokens), Charged(t, tokens), v + (if inS then 0 else 1), f + (if inT then 0 else 1), tokens)
  {
    assert Times(v - f + 1, tokens) == Times(v - f, tokens) + tokens as real;
  }

  lemma {:induction false} StaysFilled(debits: seq<Debit>, rate: real, capacity: real, n: nat)
    requires n <= |debits| && 0.0 <= rate && 0.0 <= capacity
    ensures 0.0 <= LevelBefore(debits, rate, capacity, n).tokens
  {
    if n > 0 {
      StaysFilled(debits, rate, capacity, n - 1);
      FilledStep(LevelBefore(debits, rate, capacity, n - 1), debits[n - 1].tokens, debits[n - 1].At(), rate, capacity);
    }
  }

  /** What is not below zero stays so, and then a debit of nothing is admitted and takes nothing. */
  lemma {:induction false} FilledStep(s: Level, tokens: nat, now: real, rate: real, capacity: real)
    requires 0.0 <= s.tokens && 0.0 <= rate && 0.0 <= capacity
    ensures 0.0 <= Consumed(s, tokens as real, now, rate, capacity).0.tokens
    ensures Consumed(s, 0.0, now, rate, capacity) == (Refilled(s, now, rate, capacity), true)
  {
    if s.lastRefill.Some? && now > s.lastRefill.value {
      ProductMonotone(0.0, rate, now - s.lastRefill.value);
    }
  }

  lemma {:induction false} EmptyStaysAhead(s: Level, t: Level, v: nat, f: nat, tokens: nat, now: real, rate: real,
                                           capacity: real, faster: real, larger: real)
    requires 0.0 <= rate <= faster && 0.0 <= capacity <= larger && Ahead(s, t, v, f, tokens)
    requires 0.0 <= s.tokens && 0.0 <= t.tokens
    ensures var (s', inS) := Consumed(s, 0.0, now, rate, capacity);
      var (t', inT) := Consumed(t, 0.0, now, faster, larger);
      inS && inT && Ahead(s', t', v, f, tokens)
  {
    FilledStep(s, 0, now, rate, capacity);
    FilledStep(t, 0, now, faster, larger);
    TimesPositive(v - f, tokens);
    RefillKeepsGap(s, t, now, rate, capacity, faster, larger, Times(v - f, tokens));
  }

  /** Every debit has the one size, or is of nothing in a bucket that cannot fall below zero. */
  predicate OneSize(debits: seq<Debit>, tokens: nat, rate: real, capacity: real) {
    forall i :: 0 <= i < |debits| ==>
      debits[i].tokens == tokens || (debits[i].tokens == 0 && 0.0 <= rate && 0.0 <= capacity)
  }

  lemma {:induction false} OneSizeMonotone(debits: seq<Debit>, tokens: nat, rate: real, capacity: real, faster: real,
                                           larger: real, n: nat)
    requires OneSize(debits, tokens, rate, capacity) && n <= |debits| && rate <= faster && capacity <= larger
    ensures Ahead(LevelBefore(debits, rate, capacity, n), LevelBefore(debits, faster, larger, n),
                  Violations(debits, rate, capacity, n), Violations(debits, faster, larger, n), tokens)
  {
    if n > 0 {
      var last := n - 1;
      OneSizeMonotone(debits, tokens, rate, capacity, faster, larger, last);
      var s, t := LevelBefore(debits, rate, capacity, last), LevelBefore(debits, faster, larger, last);
      var v, f := Violations(debits, rate, capacity, last), Violations(debits, faster, larger, last);
      if debits[last].tokens == tokens {
        StaysAhead(s, t, v, f, debits[last], rate, capacity, faster, larger);
      } else {
        StaysFilled(debits, rate, capacity, last);
        StaysFilled(debits, faster, larger, last);
        EmptyStaysAhead(s, t, v, f, tokens, debits[last].At(), rate, capacity, faster, larger);
      }
    }
  }

  /** For debits of one size the number of refusals is monotone as well: a faster or larger bucket refuses no more. */
  lemma {:induction false} EqualDebitsMonotone(debits: seq<Debit>, tokens: nat, rate: real, capacity: real,
                                               faster: real, larger: real, n: nat)
    requires Equal(debits, tokens) && n <= |debits| && rate <= faster && capacity <= larger
    ensures Violations(debits, faster, larger, n) <= Violations(debits, rate, capacity, n)
    ensures Ahead(LevelBefore(debits, rate, capacity, n), LevelBefore(debits, faster, larger, n),
                  Violations(debits, rate, capacity, n), Violations(debits, faster, larger, n), tokens)
  {
    OneSizeMonotone(debits, tokens, rate, capacity, faster, larger, n);
  }

  /** A large debit, a small one at the same time, and another small one a second later. */
  function LargeThenSmall(small: nat, large: nat): seq<Debit> {
    [Debit("1", 0, large, Reported), Debit("2", 0, small, Reported), Debit("3", 1_000_000_000, small, Reported)]
  }

  /** The run of a bucket over the first two debits, at one time, and over the third. */
  lemma {:induction false} RunOfThree(small: nat, large: nat, rate: real, capacity: real)
    ensures var debits := LargeThenSmall(small, large);
      var (s, x) := Consumed(Level(capacity, Some(0.0)), large as real, 0.0, rate, capacity);
      var (t, y) := Consumed(s, small as real, 0.0, rate, capacity);
      var (u, z) := Consumed(t, small as real, 1.0, rate, capacity);
      Violations(debits, rate, capacity, 3) == (if x then 0 else 1) + (if y then 0 else 1) + if z then 0 else 1
  {
    var debits := LargeThenSmall(small, large);
    assert debits[0].At() == debits[1].At() == 0.0 && debits[2].At() == 1.0;
    assert LevelBefore(debits, rate, capacity, 1) ==
      Consumed(Level(capacity, Some(0.0)), large as real, 0.0, rate, capacity).0;
    assert Violations(debits, rate, capacity, 1) == if Admitted(debits, rate, capacity, 0) then 0 else 1;
  }

  predicate DrawnFrom(debits: seq<Debit>, sizes: iset<nat>) {
    forall i :: 0 <= i < |debits| ==> debits[i].tokens in sizes
  }

  /** For others only the verdict is: a larger bucket admits a large debit that a smaller one refuses, and then
   *  refuses two small ones. */
  lemma {:induction false} ViolationsNotMonotone(small: nat, large: nat)
    requires 0 < small < large
    ensures var debits := LargeThenSmall(small, large);
      var rate, capacity, larger := small as real - 0.25, large as real - 0.5, large as real;
      && Chronological(debits) && DrawnFrom(debits, iset{small, large})
      && Violations(debits, rate, capacity, 3) == 1 && Violations(debits, rate, larger, 3) == 2
  {
    var rate, larger := small as real - 0.25, large as real;
    assert Gained(1.0, rate) == rate;
    RunOfThree(small, large, rate, larger - 0.5);
    RunOfThree(small, large, rate, larger);
  }

  /** In a bucket that drains, the debits of nothing are refused after the large one was admitted. */
  lemma {:induction false} DrainedRefusesNothing(large: nat)
    requires 0 < large
    ensures var debits := Drained(large);
      && Chronological(debits) && DrawnFrom(debits, iset{0, large})
      && Violations(debits, -0.5, large as real - 0.5, 3) == 1 && Violations(debits, -0.5, large as real, 3) == 2
  {
    var debits, larger := Drained(large), large as real;
    assert debits[0].At() == 0.0 && debits[1].At() == debits[2].At() == 1.0;
    assert Gained(1.0, -0.5) == -0.5;
    RunOfDrained(large, larger - 0.5, larger - 0.5, larger - 1.0);
    RunOfDrained(large, larger, 0.0, -0.5);
  }

  function Drained(large: nat): seq<Debit> {
    [Debit("1", 0, large, Reported), Debit("2", 1_000_000_000, 0, Reported), Debit("3", 1_000_000_000, 0, Reported)]
  }

  lemma {:induction false} RunOfDrained(large: nat, capacity: real, left: real, later: real)
    requires left == (if capacity >= large as real then capacity - large as real else capacity) && later == left - 0.5
    requires left <= capacity
    ensures Violations(Drained(large), -0.5, capacity, 3) ==
      (if capacity >= large as real then 0 else 1) + if later >= 0.0 then 0 else 2
  {
    var debits := Drained(large);
    assert debits[0].At() == 0.0 && debits[1].At() == debits[2].At() == 1.0;
    assert Gained(1.0, -0.5) == -0.5;
    assert LevelBefore(debits, -0.5, capacity, 1) == Level(left, Some(0.0));
    assert LevelBefore(debits, -0.5, capacity, 2) == Level(later, Some(1.0));
    assert Violations(debits, -0.5, capacity, 1) == if capacity >= large as real then 0 else 1;
  }

  /** A faster or larger bucket refuses no more debits, whenever their sizes are among the given; a bucket that is
   *  `signed` may have a rate or capacity below zero. */
  ghost predicate CountMonotone(sizes: iset<nat>, signed: bool) {
    forall debits, rate, capacity, faster, larger ::
      Chronological(debits) && DrawnFrom(debits, sizes) && rate <= faster && capacity <= larger
      && (signed || (0.0 <= rate && 0.0 <= capacity))
      ==> Violations(debits, faster, larger, |debits|) <= Violations(debits, rate, capacity, |debits|)
  }

  /** The number of refusals is monotone for debits of the given sizes exactly when at most one of them is positive;
   *  in buckets that may also drain, exactly when there is at most one size. */
  lemma {:induction false} CountMonotoneIff(sizes: iset<nat>, signed: bool)
    ensures CountMonotone(sizes, signed) <==>
      forall a, b :: a in sizes && b in sizes && a < b ==> a == 0 && !signed
  {
    if forall a, b :: a in sizes && b in sizes && a < b ==> a == 0 && !signed {
      forall debits, rate, capacity, faster, larger |
        Chronological(debits) && DrawnFrom(debits, sizes) && rate <= faster && capacity <= larger
        && (signed || (0.0 <= rate && 0.0 <= capacity))
        ensures Violations(debits, faster, larger, |debits|) <= Violations(debits, rate, capacity, |debits|)
      {
        var tokens := if p :| p in sizes && p > 0 then p else 0;
        assert OneSize(debits, tokens, rate, capacity);
        OneSizeMonotone(debits, tokens, rate, capacity, faster, larger, |debits|);
      }
    } else {
      var a, b :| a in sizes && b in sizes && a < b && (a > 0 || signed);
      if a > 0 { ViolationsNotMonotone(a, b); } else { DrainedRefusesNothing(b); }
      assert !CountMonotone(sizes, signed);
    }
  }

  // ---------------------------------------------------------------- over many sessions

  function Failing(sessions: seq<seq<StoredMessage>>, rate: real, capacity: real): nat {
    if |sessions| == 0 then 0 else
    var last := |sessions| - 1;
    Failing(sessions[..last], rate, capacity) + if Ok(Extracted(sessions[last]), rate, capacity) then 0 else 1
  }

  function P429(sessions: seq<seq<StoredMessage>>, rate: real, capacity: real): real {
    if |sessions| == 0 then 0.0 else Failing(sessions, rate, capacity) as real / |sessions| as real
  }

  method EstimateP429(sessions: seq<seq<StoredMessage>>, rate: real, capacity: real) returns (p: real)
    ensures p == P429(sessions, rate, capacity)
  {
    if |sessions| == 0 { return 0.0; }
    var failed := 0;
    for i := 0 to |sessions|
      invariant failed == Failing(sessions[..i], rate, capacity)
    {
      assert sessions[..i + 1][..i] == sessions[..i];
      var r := SimulateEvents(Extracted(sessions[i]), rate, capacity);
      if !r.ok { failed := failed + 1; }
    }
    assert sessions[..|sessions|] == sessions;
    p := failed as real / |sessions| as real;
  }

  lemma {:induction false} FailingAntitone(sessions: seq<seq<StoredMessage>>, rate: real, capacity: real, faster: real,
                                           larger: real)
    requires rate <= faster && capacity <= larger
    ensures Failing(sessions, faster, larger) <= Failing(sessions, rate, capacity) <= |sessions|
  {
    if |sessions| > 0 {
      var last := |sessions| - 1;
      FailingAntitone(sessions[..last], rate, capacity, faster, larger);
      if Ok(Extracted(sessions[last]), rate, capacity) {
        ExtractedChronological(sessions[last]);
        OkMonotone(Extracted(sessions[last]), rate, capacity, faster, larger);
      }
    }
  }

  /** A faster or larger bucket never makes a violation more likely; the estimate is a probability. */
  lemma {:induction false} P429Antitone(sessions: seq<seq<StoredMessage>>, rate: real, capacity: real, faster: real,
                                        larger: real)
    requires rate <= faster && capacity <= larger
    ensures 0.0 <= P429(sessions, faster, larger) <= P429(sessions, rate, capacity) <= 1.0
  {
    if |sessions| > 0 {
      FailingAntitone(sessions, rate, capacity, faster, larger);
      DivideMonotone(Failing(sessions, faster, larger), Failing(sessions, rate, capacity), |sessions|);
      DivideMonotone(Failing(sessions, rate, capacity), |sessions|, |sessions|);
    }
  }

  lemma {:induction false} DivideMonotone(a: nat, b: nat, n: nat)
    requires a <= b && n > 0
    ensures 0.0 <= a as real / n as real <= b as real / n as real
    ensures n as real / n as real == 1.0
  {
  }
}
