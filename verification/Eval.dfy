/** Scoring a session's tool calls against expected and forbidden ones. */
module Eval {
  import opened Json
  import opened Protocol
  import Pairing
  import Session
  import Divergence

  datatype Call = Call(tool: string, arguments: Json)

  datatype Expected = Expected(tool: string, required: Option<Json>)

  datatype Spec = Spec(ordered: bool, expected: seq<Expected>, forbidden: seq<string>)

  /** Every required pair is in the call's arguments. */
  predicate ArgumentsSubset(required: Json, actual: Json) {
    match required
    case Obj(fields) => actual.Obj? && forall k :: k in fields ==> k in actual.fields && actual.fields[k] == fields[k]
    case _ => required == actual
  }

  predicate Fits(x: Expected, c: Call) {
    c.tool == x.tool && (x.required.Some? ==> ArgumentsSubset(x.required.value, c.arguments))
  }

  function ArgumentsOf(payload: Option<Json>): Json {
    match payload
    case None => Null
    case Some(p) =>
      match p.Get("params")
      case None => Null
      case Some(params) => match params.Get("arguments") case Some(arguments) => arguments case None => Null
  }

  /** The tool calls of the first `n` exchanges, in order. */
  function CallsOf(exchanges: seq<Pairing.Exchange>, payloads: map<nat, Json>, n: nat): seq<Call>
    requires n <= |exchanges|
  {
    if n == 0 then [] else
    var e := exchanges[n - 1];
    CallsOf(exchanges, payloads, n - 1) +
    if e.tool.Some? then [Call(e.tool.value, ArgumentsOf(Divergence.PayloadAt(e.requestSeq, payloads)))] else []
  }

  // ---------------------------------------------------------------- greedy matching

  predicate Eligible(ordered: bool, calls: seq<Call>, used: set<nat>, last: Option<nat>, x: Expected, p: nat)
    requires p < |calls|
  {
    p !in used && Fits(x, calls[p]) && (ordered && last.Some? ==> last.value < p)
  }

  function First(ordered: bool, calls: seq<Call>, used: set<nat>, last: Option<nat>, x: Expected,
                 from: nat): (r: Option<nat>)
    requires from <= |calls|
    ensures r.Some? ==> from <= r.value < |calls| && Eligible(ordered, calls, used, last, x, r.value)
    ensures forall p :: from <= p < |calls| && (r.Some? ==> p < r.value) ==> !Eligible(ordered, calls, used, last, x, p)
    decreases |calls| - from
  {
    if from == |calls| then None
    else if Eligible(ordered, calls, used, last, x, from) then Some(from)
    else First(ordered, calls, used, last, x, from + 1)
  }

  /** The position each of the first expectations took. */
  datatype Progress = Progress(found: seq<Option<nat>>, used: set<nat>, last: Option<nat>)

  function Greedy(ordered: bool, expected: seq<Expected>, calls: seq<Call>, n: nat): (s: Progress)
    requires n <= |expected|
    ensures |s.found| == n
  {
    if n == 0 then Progress([], {}, None) else
    var s := Greedy(ordered, expected, calls, n - 1);
    var p := First(ordered, calls, s.used, s.last, expected[n - 1], 0);
    Progress(s.found + [p], if p.Some? then s.used + {p.value} else s.used, if p.Some? then p else s.last)
  }

  function Satisfied(found: seq<Option<nat>>): seq<bool> {
    seq(|found|, i requires 0 <= i < |found| => found[i].Some?)
  }

  predicate Called(calls: seq<Call>, tool: string) { exists p :: 0 <= p < |calls| && calls[p].tool == tool }

  function Forbidden(spec: Spec, calls: seq<Call>): seq<bool> {
    seq(|spec.forbidden|, i requires 0 <= i < |spec.forbidden| => !Called(calls, spec.forbidden[i]))
  }

  function CountTrue(results: seq<bool>, n: nat): (c: nat)
    requires n <= |results|
    ensures c <= n && (c == n <==> forall i :: 0 <= i < n ==> results[i])
  {
    if n == 0 then 0 else CountTrue(results, n - 1) + if results[n - 1] then 1 else 0
  }

  /** The fraction of checks that hold; all of none. */
  function Accuracy(results: seq<bool>): real {
    if |results| == 0 then 1.0 else CountTrue(results, |results|) as real / |results| as real
  }

  /** One entry per check, and the fraction of checks that hold. */
  method Evaluate(spec: Spec, calls: seq<Call>) returns (results: seq<bool>, accuracy: real)
    ensures results ==
      Satisfied(Greedy(spec.ordered, spec.expected, calls, |spec.expected|).found) + Forbidden(spec, calls)
    ensures accuracy == Accuracy(results)
  {
    var used := new bool[|calls|](_ => false);
    var last: Option<nat> := None;
    results := [];
    for i := 0 to |spec.expected|
      invariant fresh(used) && used.Length == |calls|
      invariant var s := Greedy(spec.ordered, spec.expected, calls, i);
        results == Satisfied(s.found) && last == s.last && forall p: nat :: p < |calls| ==> (used[p] <==> p in s.used)
    {
      ghost var s := Greedy(spec.ordered, spec.expected, calls, i);
      var found := FindCall(spec.ordered, calls, used, last, spec.expected[i], s.used);
      if found.Some? {
        used[found.value] := true;
        last := found;
      }
      results := results + [found.Some?];
    }
    var forbidden := CheckForbidden(spec, calls);
    results := results + forbidden;
    var satisfied := CountSatisfied(results);
    accuracy := if |results| == 0 then 1.0 else satisfied as real / |results| as real;
  }

  method FindCall(ordered: bool, calls: seq<Call>, used: array<bool>, last: Option<nat>, x: Expected,
                  ghost taken: set<nat>)
    returns (found: Option<nat>)
    requires used.Length == |calls| && forall p: nat :: p < |calls| ==> (used[p] <==> p in taken)
    ensures found == First(ordered, calls, taken, last, x, 0)
  {
    for p := 0 to |calls|
      invariant First(ordered, calls, taken, last, x, 0) == First(ordered, calls, taken, last, x, p)
    {
      if !used[p] && calls[p].tool == x.tool && !(ordered && last.Some? && p <= last.value)
         && (x.required.None? || ArgumentsSubset(x.required.value, calls[p].arguments)) {
        return Some(p);
      }
    }
    return None;
  }

  method CheckForbidden(spec: Spec, calls: seq<Call>) returns (results: seq<bool>)
    ensures results == Forbidden(spec, calls)
  {
    results := [];
    for i := 0 to |spec.forbidden|
      invariant results == Forbidden(spec, calls)[..i]
    {
      results := results + [!Called(calls, spec.forbidden[i])];
    }
  }

  method CountSatisfied(results: seq<bool>) returns (n: nat)
    ensures n == CountTrue(results, |results|)
  {
    n := 0;
    for i := 0 to |results|
      invariant n == CountTrue(results, i)
    {
      if results[i] { n := n + 1; }
    }
  }

  /** `evaluate`: the calls of a session, scored. */
  method EvaluateLog(spec: Spec, messages: seq<StoredMessage>) returns (results: seq<bool>, accuracy: real)
    ensures var exchanges := Session.Correlated(messages).0;
      var calls := CallsOf(exchanges, Divergence.PayloadsBySeq(messages), |exchanges|);
      results == Satisfied(Greedy(spec.ordered, spec.expected, calls, |spec.expected|).found) + Forbidden(spec, calls)
    ensures accuracy == Accuracy(results)
  {
    var model := Session.Correlate(messages);
    var calls := CallsOf(model.exchanges, Divergence.PayloadsBySeq(messages), |model.exchanges|);
    results, accuracy := Evaluate(spec, calls);
  }

  predicate AllFound(ordered: bool, expected: seq<Expected>, calls: seq<Call>) {
    forall i :: 0 <= i < |expected| ==> Greedy(ordered, expected, calls, |expected|).found[i].Some?
  }

  /** Full accuracy is exactly: every expectation found its call, and no forbidden tool was called. */
  lemma {:induction false} PerfectIff(spec: Spec, calls: seq<Call>)
    ensures var results := Satisfied(Greedy(spec.ordered, spec.expected, calls, |spec.expected|).found)
      + Forbidden(spec, calls);
      Accuracy(results) == 1.0 <==>
        && AllFound(spec.ordered, spec.expected, calls)
        && forall i :: 0 <= i < |spec.forbidden| ==> !Called(calls, spec.forbidden[i])
  {
    FullAccuracy(Satisfied(Greedy(spec.ordered, spec.expected, calls, |spec.expected|).found) + Forbidden(spec, calls));
    var found, forbidden := Satisfied(Greedy(spec.ordered, spec.expected, calls, |spec.expected|).found),
        Forbidden(spec, calls);
    AllBoth(found, forbidden);
    assert forall i :: 0 <= i < |spec.forbidden| ==> (!Called(calls, spec.forbidden[i]) <==> forbidden[i]);
    var s := Greedy(spec.ordered, spec.expected, calls, |spec.expected|);
    assert forall i :: 0 <= i < |found| ==> (s.found[i].Some? <==> found[i]);
  }

  lemma {:induction false} FullAccuracy(results: seq<bool>)
    ensures 0.0 <= Accuracy(results) <= 1.0
    ensures Accuracy(results) == 1.0 <==> CountTrue(results, |results|) == |results|
  {
    if |results| > 0 {
      Fraction(CountTrue(results, |results|) as real, |results| as real);
    }
  }

  lemma {:induction false} Fraction(c: real, n: real)
    requires 0.0 <= c <= n && 0.0 < n
    ensures 0.0 <= c / n <= 1.0 && (c / n == 1.0 <==> c == n)
  {
    if c < n { ProperFraction(c, n, c / n); } else { Whole(n); }
  }

  lemma {:induction false} ProperFraction(c: real, n: real, q: real)
    requires 0.0 <= c < n && q * n == c
    ensures 0.0 <= q < 1.0
  {
    if q < 0.0 { Scaled(q, 0.0, n); }
    if q >= 1.0 { NotBelow(1.0, q, n); }
  }

  lemma {:induction false} Whole(n: real)
    requires 0.0 < n
    ensures n / n == 1.0
  {
  }

  lemma {:induction false} NotBelow(a: real, b: real, n: real)
    requires a <= b && 0.0 < n
    ensures a * n <= b * n
  {
    if a < b { Scaled(a, b, n); }
  }

  lemma {:induction false} Scaled(a: real, b: real, n: real)
    requires a < b && 0.0 < n
    ensures a * n < b * n
  {
    assert (b - a) * n > 0.0;
    assert (b - a) * n == b * n - a * n;
  }

  lemma {:induction false} AllBoth(x: seq<bool>, y: seq<bool>)
    ensures CountTrue(x + y, |x + y|) == |x + y| <==>
      (forall i :: 0 <= i < |x| ==> x[i]) && (forall i :: 0 <= i < |y| ==> y[i])
  {
    var all := x + y;
    assert forall i :: 0 <= i < |x| ==> all[i] == x[i];
    assert forall i :: 0 <= i < |y| ==> all[|x| + i] == y[i];
  }

  // ---------------------------------------------------------------- positions

  lemma {:induction false} FoundPrefix(ordered: bool, expected: seq<Expected>, calls: seq<Call>, m: nat, n: nat)
    requires m <= n <= |expected|
    ensures Greedy(ordered, expected, calls, m).found == Greedy(ordered, expected, calls, n).found[..m]
  {
    if m < n { FoundPrefix(ordered, expected, calls, m, n - 1); }
  }

  lemma {:induction false} FoundUsed(ordered: bool, expected: seq<Expected>, calls: seq<Call>, n: nat, i: nat)
    requires i < n <= |expected| && Greedy(ordered, expected, calls, n).found[i].Some?
    ensures var p := Greedy(ordered, expected, calls, n).found[i].value;
      p in Greedy(ordered, expected, calls, n).used && p < |calls| && Fits(expected[i], calls[p])
  {
    if i < n - 1 { FoundUsed(ordered, expected, calls, n - 1, i); }
  }

  /** No call satisfies two expectations, in either mode. */
  lemma {:induction false} PositionsDistinct(ordered: bool, expected: seq<Expected>, calls: seq<Call>, n: nat, i: nat,
                                             j: nat)
    requires i < j < n <= |expected|
    requires var found := Greedy(ordered, expected, calls, n).found; found[i].Some? && found[j].Some?
    ensures Greedy(ordered, expected, calls, n).found[i] != Greedy(ordered, expected, calls, n).found[j]
  {
    if j < n - 1 { PositionsDistinct(ordered, expected, calls, n - 1, i, j); }
      else { FoundUsed(ordered, expected, calls, n - 1, i); }
  }

  // ---------------------------------------------------------------- ordered mode

  /** The expectations find their calls at increasing positions. */
  predicate Embeds(expected: seq<Expected>, calls: seq<Call>, p: seq<nat>) {
    && |p| == |expected| && (forall i, j :: 0 <= i < j < |p| ==> p[i] < p[j])
    && forall i :: 0 <= i < |p| ==> p[i] < |calls| && Fits(expected[i], calls[p[i]])
  }

  /** Taking the earliest call that fits never runs past an embedding. */
  lemma {:induction false} GreedyStaysBelow(expected: seq<Expected>, calls: seq<Call>, p: seq<nat>, n: nat)
    requires Embeds(expected, calls, p) && n <= |expected|
    ensures var s := Greedy(true, expected, calls, n);
      && (forall i :: 0 <= i < n ==> s.found[i].Some?)
      && (n > 0 ==> s.last.Some? && s.last.value <= p[n - 1])
      && (n == 0 ==> s.last.None?)
      && (forall q :: q in s.used ==> s.last.Some? && q <= s.last.value)
  {
    if n > 0 {
      GreedyStaysBelow(expected, calls, p, n - 1);
      var s := Greedy(true, expected, calls, n - 1);
      assert n > 1 ==> p[n - 2] < p[n - 1];
      assert Eligible(true, calls, s.used, s.last, expected[n - 1], p[n - 1]);
    }
  }

  lemma {:induction false} LastIsLatest(expected: seq<Expected>, calls: seq<Call>, n: nat, i: nat)
    requires i < n <= |expected| && Greedy(true, expected, calls, n).found[i].Some?
    ensures var s := Greedy(true, expected, calls, n); s.last.Some? && s.found[i].value <= s.last.value
  {
    if i < n - 1 { LastIsLatest(expected, calls, n - 1, i); }
  }

  lemma {:induction false} FoundIncreasing(expected: seq<Expected>, calls: seq<Call>, n: nat, i: nat, j: nat)
    requires i < j < n <= |expected|
    requires var found := Greedy(true, expected, calls, n).found; found[i].Some? && found[j].Some?
    ensures Greedy(true, expected, calls, n).found[i].value < Greedy(true, expected, calls, n).found[j].value
  {
    if j < n - 1 { FoundIncreasing(expected, calls, n - 1, i, j); } else { LastIsLatest(expected, calls, n - 1, i); }
  }

  function Positions(found: seq<Option<nat>>): seq<nat>
    requires forall i :: 0 <= i < |found| ==> found[i].Some?
  {
    seq(|found|, i requires 0 <= i < |found| => found[i].value)
  }

  /** In ordered mode every expectation is satisfied exactly when some strictly increasing embedding into the calls
   *  exists. */
  lemma {:induction false} OrderedIff(expected: seq<Expected>, calls: seq<Call>)
    ensures AllFound(true, expected, calls) <==> exists p :: Embeds(expected, calls, p)
  {
    var n, found := |expected|, Greedy(true, expected, calls, |expected|).found;
    if AllFound(true, expected, calls) {
      forall i | 0 <= i < n ensures found[i].value < |calls| && Fits(expected[i], calls[found[i].value]) {
        FoundUsed(true, expected, calls, n, i);
      }
      forall i, j | 0 <= i < j < n ensures found[i].value < found[j].value {
        FoundIncreasing(expected, calls, n, i, j);
      }
      assert Embeds(expected, calls, Positions(found));
    }
    if p :| Embeds(expected, calls, p) { GreedyStaysBelow(expected, calls, p, n); }
  }

  // ---------------------------------------------------------------- unordered mode

  /** Every expectation has a call of its own. */
  predicate Assigns(expected: seq<Expected>, calls: seq<Call>, p: seq<nat>) {
    && |p| == |expected| && (forall i, j :: 0 <= i < j < |p| ==> p[i] != p[j])
    && forall i :: 0 <= i < |p| ==> p[i] < |calls| && Fits(expected[i], calls[p[i]])
  }

  /** No call fits both, or every call that fits the first fits the second. */
  ghost predicate Nested(x: Expected, y: Expected) {
    (forall c :: !(Fits(x, c) && Fits(y, c))) || (forall c :: Fits(x, c) ==> Fits(y, c))
  }

  ghost predicate Laminar(expected: seq<Expected>) {
    forall i, j :: 0 <= i < j < |expected| ==> Nested(expected[i], expected[j])
  }

  /** The assignment agrees with the greedy choices so far. */
  predicate Agrees(s: Progress, p: seq<nat>) {
    && |s.found| <= |p| && (forall i :: 0 <= i < |s.found| ==> s.found[i] == Some(p[i]))
    && (forall q :: q in s.used ==> exists i :: 0 <= i < |s.found| && p[i] == q)
  }

  /** Giving expectation `n` another call that fits it: whoever had that call takes the one it gives up. */
  lemma {:induction false} Reassign(expected: seq<Expected>, calls: seq<Call>, n: nat, p: seq<nat>, x: nat)
    returns (q: seq<nat>)
    requires Laminar(expected) && n < |expected| && Assigns(expected, calls, p) && x < |calls|
      && Fits(expected[n], calls[x])
    requires forall i :: 0 <= i < n ==> p[i] != x
    ensures Assigns(expected, calls, q) && q[n] == x && forall i :: 0 <= i < n ==> q[i] == p[i]
  {
    if j :| n < j < |p| && p[j] == x {
      assert Nested(expected[n], expected[j]);
      q := p[n := x][j := p[n]];
    } else {
      q := p[n := x];
    }
  }

  /** Whatever the greedy scorer takes next, the rest can still be assigned. */
  lemma {:induction false} Exchange(expected: seq<Expected>, calls: seq<Call>, n: nat, p: seq<nat>)
    returns (q: seq<nat>)
    requires Laminar(expected) && n < |expected| && Assigns(expected, calls, p)
      && Agrees(Greedy(false, expected, calls, n), p)
    ensures Assigns(expected, calls, q) && Agrees(Greedy(false, expected, calls, n + 1), q)
  {
    var s := Greedy(false, expected, calls, n);
    assert Eligible(false, calls, s.used, s.last, expected[n], p[n]);
    var x := First(false, calls, s.used, s.last, expected[n], 0).value;
    forall i | 0 <= i < n ensures p[i] != x {
      assert s.found[i] == Some(p[i]);
      FoundUsed(false, expected, calls, n, i);
    }
    q := Reassign(expected, calls, n, p, x);
    AgreesNext(s, Greedy(false, expected, calls, n + 1), p, q, x);
  }

  lemma {:induction false} AgreesNext(s: Progress, t: Progress, p: seq<nat>, q: seq<nat>, x: nat)
    requires Agrees(s, p) && |q| == |p| > |s.found| && t.found == s.found + [Some(x)] && t.used == s.used + {x}
    requires q[|s.found|] == x && forall i :: 0 <= i < |s.found| ==> q[i] == p[i]
    ensures Agrees(t, q)
  {
    forall u | u in t.used ensures exists i :: 0 <= i < |t.found| && q[i] == u {
      if u != x {
        var i :| 0 <= i < |s.found| && p[i] == u;
        assert q[i] == u;
      }
    }
  }

  lemma {:induction false} GreedyKeepsAssignment(expected: seq<Expected>, calls: seq<Call>, p: seq<nat>, n: nat)
    returns (q: seq<nat>)
    requires Laminar(expected) && Assigns(expected, calls, p) && n <= |expected|
    ensures Assigns(expected, calls, q) && Agrees(Greedy(false, expected, calls, n), q)
  {
    q := p;
    if n > 0 {
      var r := GreedyKeepsAssignment(expected, calls, p, n - 1);
      q := Exchange(expected, calls, n - 1, r);
    }
  }

  lemma {:induction false} FoundAssigns(expected: seq<Expected>, calls: seq<Call>)
    requires AllFound(false, expected, calls)
    ensures Assigns(expected, calls, Positions(Greedy(false, expected, calls, |expected|).found))
  {
    var n, found := |expected|, Greedy(false, expected, calls, |expected|).found;
    forall i | 0 <= i < n ensures found[i].value < |calls| && Fits(expected[i], calls[found[i].value]) {
      FoundUsed(false, expected, calls, n, i);
    }
    forall i, j | 0 <= i < j < n ensures found[i].value != found[j].value {
      PositionsDistinct(false, expected, calls, n, i, j);
    }
  }

  /** When any two expectations are nested, the earlier in the later, or apart, unordered scoring is complete: every
   *  expectation is satisfied exactly when they can be given calls of their own. */
  lemma {:induction false} UnorderedIff(expected: seq<Expected>, calls: seq<Call>)
    requires Laminar(expected)
    ensures AllFound(false, expected, calls) <==> exists p :: Assigns(expected, calls, p)
  {
    if AllFound(false, expected, calls) { FoundAssigns(expected, calls); }
    if p :| Assigns(expected, calls, p) {
      var q := GreedyKeepsAssignment(expected, calls, p, |expected|);
    }
  }

  /** A call that asks for nothing more than the expectation does. */
  function Sample(x: Expected): (c: Call)
    ensures Fits(x, c)
  {
    Call(x.tool, if x.required.Some? then x.required.value else Null)
  }

  /** Of the pairs that are neither nested nor apart, one whose later expectation comes last. */
  lemma {:induction false} LastCrossing(expected: seq<Expected>, n: nat) returns (i: nat, j: nat)
    requires n <= |expected| && exists k, l :: 0 <= k < l < n && !Nested(expected[k], expected[l])
    requires forall k, l :: 0 <= k < l < |expected| && n <= l ==> Nested(expected[k], expected[l])
    ensures i < j < |expected| && !Nested(expected[i], expected[j])
    ensures forall k, l :: 0 <= k < l < |expected| && j < l ==> Nested(expected[k], expected[l])
  {
    if k :| 0 <= k < n - 1 && !Nested(expected[k], expected[n - 1]) {
      i, j := k, n - 1;
    } else {
      i, j := LastCrossing(expected, n - 1);
    }
  }

  /** `c` in the place of expectation `i`, and `d` wherever the call of a later one would help out `j`. */
  function StarvingCall(expected: seq<Expected>, i: nat, j: nat, c: Call, d: Call, k: nat): Call
    requires i < j < |expected| && k < |expected|
  {
    var own := Sample(expected[k]);
    if k == i then c else if k == j || (k > j && Fits(expected[j], own)) then d else own
  }

  function Starving(expected: seq<Expected>, i: nat, j: nat, c: Call, d: Call): seq<Call>
    requires i < j < |expected|
  {
    seq(|expected|, k requires 0 <= k < |expected| => StarvingCall(expected, i, j, c, d, k))
  }

  /** The call in place of a later expectation fits it, and does not fit `j`. */
  lemma {:induction false} LaterCallFits(expected: seq<Expected>, i: nat, j: nat, c: Call, d: Call, k: nat)
    requires i < j < k < |expected| && Nested(expected[i], expected[k]) && Nested(expected[j], expected[k])
    requires Fits(expected[i], c) && Fits(expected[j], c) && Fits(expected[i], d) && !Fits(expected[j], d)
    ensures var call := StarvingCall(expected, i, j, c, d, k); Fits(expected[k], call) && !Fits(expected[j], call)
  {
    if Fits(expected[j], Sample(expected[k])) {
      assert Fits(expected[k], c);
    }
  }

  /** When each of the first calls fits the expectation in its place, the first expectations take just those. */
  lemma {:induction false} TakenInOrder(expected: seq<Expected>, calls: seq<Call>, n: nat)
    requires n <= |expected| && n <= |calls| && forall k :: 0 <= k < n ==> Fits(expected[k], calls[k])
    ensures forall p: nat :: p in Greedy(false, expected, calls, n).used <==> p < n
  {
    if n > 0 {
      TakenInOrder(expected, calls, n - 1);
      var s := Greedy(false, expected, calls, n - 1);
      assert Eligible(false, calls, s.used, s.last, expected[n - 1], n - 1);
    }
  }

  /** An expectation starves when every call that fits it stands in the place of an earlier one. */
  lemma {:induction false} Starves(expected: seq<Expected>, calls: seq<Call>, j: nat)
    requires j < |expected| && j <= |calls| && forall k :: 0 <= k < j ==> Fits(expected[k], calls[k])
    requires forall k :: j <= k < |calls| ==> !Fits(expected[j], calls[k])
    ensures !AllFound(false, expected, calls)
  {
    TakenInOrder(expected, calls, j);
    FoundPrefix(false, expected, calls, j + 1, |expected|);
    assert Greedy(false, expected, calls, j + 1).found[j].None?;
  }

  /** Expectations that cross starve one that has a call of its own. */
  lemma {:induction false} CrossingStarves(expected: seq<Expected>, i: nat, j: nat) returns (calls: seq<Call>)
    requires i < j < |expected| && !Nested(expected[i], expected[j])
    requires forall k, l :: 0 <= k < l < |expected| && j < l ==> Nested(expected[k], expected[l])
    ensures !AllFound(false, expected, calls) && exists p :: Assigns(expected, calls, p)
  {
    var c :| Fits(expected[i], c) && Fits(expected[j], c);
    var d :| Fits(expected[i], d) && !Fits(expected[j], d);
    calls := Starving(expected, i, j, c, d);
    forall k | j < k < |expected| ensures Fits(expected[k], calls[k]) && !Fits(expected[j], calls[k]) {
      LaterCallFits(expected, i, j, c, d, k);
    }
    Starves(expected, calls, j);
    var swapped := seq(|expected|, k requires 0 <= k < |expected| => if k == i then j else if k == j then i else k);
    assert Assigns(expected, calls, swapped);
  }

  /** On every log the expectations are satisfied exactly when they can be given calls of their own. */
  ghost predicate Complete(expected: seq<Expected>) {
    forall calls :: AllFound(false, expected, calls) <==> exists p :: Assigns(expected, calls, p)
  }

  /** Unordered scoring is complete on every log exactly when any two expectations are nested, the earlier in the
   *  later, or apart. */
  lemma {:induction false} CompleteIff(expected: seq<Expected>)
    ensures Complete(expected) <==> Laminar(expected)
  {
    if Laminar(expected) {
      forall calls ensures AllFound(false, expected, calls) <==> exists p :: Assigns(expected, calls, p) {
        UnorderedIff(expected, calls);
      }
    } else {
      var i, j := LastCrossing(expected, |expected|);
      var calls := CrossingStarves(expected, i, j);
    }
  }

  /** Two expectations are scored completely on every log exactly when they are nested or apart. */
  lemma {:induction false} PairIff(x: Expected, y: Expected)
    ensures Complete([x, y]) <==> Nested(x, y)
  {
    CompleteIff([x, y]);
    assert [x, y][0] == x && [x, y][1] == y;
  }

  // ---------------------------------------------------------------- nesting, read off the specification

  predicate Compatible(a: Option<Json>, b: Option<Json>) {
    a.None? || b.None?
    || (if a.value.Obj? && b.value.Obj?
        then forall k :: k in a.value.fields && k in b.value.fields ==> a.value.fields[k] == b.value.fields[k]
        else a == b)
  }

  /** The second asks for nothing the first does not ask for. */
  predicate Weaker(a: Option<Json>, b: Option<Json>) { b.None? || (a.Some? && ArgumentsSubset(b.value, a.value)) }

  lemma {:induction false} NestedIff(x: Expected, y: Expected)
    ensures Nested(x, y) <==> x.tool != y.tool || !Compatible(x.required, y.required) || Weaker(x.required, y.required)
  {
    if x.tool == y.tool && Compatible(x.required, y.required) && !Weaker(x.required, y.required) {
      assert x.required.Some? ==> x.required.value.Obj? && y.required.value.Obj?;
      var both := if x.required.None? then y.required.value else Obj(x.required.value.fields + y.required.value.fields);
      var one := if x.required.Some? then x.required.value else if y.required.value.Null? then Bool(true) else Null;
      assert Fits(x, Call(x.tool, both)) && Fits(y, Call(x.tool, both));
      assert Fits(x, Call(x.tool, one)) && !Fits(y, Call(x.tool, one));
    } else if x.tool == y.tool && Compatible(x.required, y.required) {
      assert forall c :: Fits(x, c) ==> Fits(y, c);
    } else {
      assert forall c :: !(Fits(x, c) && Fits(y, c));
    }
  }
}
