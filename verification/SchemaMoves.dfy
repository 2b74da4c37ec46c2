/** Where a bounded schema analysis stops: at the first move of the unbounded walk for which there is no room. */
module SchemaMoves {
  import opened Json
  import Pointers
  import opened Schema

  /** What the walk does: begin with two versions of a schema, visit two nodes, say something about them. */
  datatype Move = Begin | Visit(w: Where, pointer: string, depth: nat) | Say(e: Explanation)

  function Says(es: seq<Explanation>): seq<Move> { seq(|es|, i requires 0 <= i < |es| => Say(es[i])) }

  // ---------------------------------------------------------------- the moves of the unbounded walk

  function Moves(w: Where, before: Json, after: Json, pointer: string, depth: nat): seq<Move>
    decreases Rank(before), before, after, 1, 0
  {
    [Visit(w, pointer, depth)]
    + if !before.Obj? || !after.Obj? then [Say(NotSupported(w, pointer))] else
      Says(Head(w, before, after, pointer))
      + MovesOfNames(w, before, after, Names(before, after), pointer, depth)
      + Says(Tail(w, before, after, Keywords(before, after), pointer))
  }

  function MovesOfNames(w: Where, before: Json, after: Json, names: seq<string>, pointer: string,
                        depth: nat): seq<Move>
    requires before.Obj? && after.Obj? && forall n :: n in names ==> n in Properties(before) || n in Properties(after)
    decreases Rank(before), before, after, 0, |names|
  {
    if |names| == 0 then [] else
    MovesOfName(w, before, after, names[0], pointer, depth)
    + MovesOfNames(w, before, after, names[1..], pointer, depth)
  }

  function MovesOfName(w: Where, before: Json, after: Json, name: string, pointer: string, depth: nat): seq<Move>
    requires before.Obj? && after.Obj? && (name in Properties(before) || name in Properties(after))
    decreases Rank(before), before, after, 0, 0
  {
    if Property(before, name) == Property(after, name) then [] else
    PropertyBelow(before, name);
    PropertyBelow(after, name);
    Moves(w, Property(before, name), Property(after, name), PropertyPointer(pointer, name), depth + 1)
  }

  function MovesOfPair(p: Pair): seq<Move> {
    if p.before == p.after then []
    else if p.before.Some? && p.after.Some? then [Begin] + Moves(p.w, p.before.value, p.after.value, "", 0)
    else [Say(NotSupported(p.w, ""))]
  }

  const MOVES: Pair -> seq<Move> := p => MovesOfPair(p)

  function MovesOfAll(moves: Pair -> seq<Move>, pairs: seq<Pair>, n: nat): seq<Move>
    requires n <= |pairs|
  {
    if n == 0 then [] else MovesOfAll(moves, pairs, n - 1) + moves(pairs[n - 1])
  }

  // ---------------------------------------------------------------- the bounded walk makes the same moves

  function Made(s: State, move: Move): State {
    if s.truncated then s else
    match move
    case Begin => s.(nodes := 0)
    case Visit(w, pointer, depth) =>
      if Refused(s, depth) then PushLimit(w, Counted(s, depth), pointer) else Counted(s, depth)
    case Say(e) => if |s.out| >= MAX_SCHEMA_EXPLANATIONS then s.(truncated := true) else s.(out := s.out + [e])
  }

  function After(s: State, moves: seq<Move>): State {
    if |moves| == 0 then s else Made(After(s, moves[..|moves| - 1]), moves[|moves| - 1])
  }

  lemma {:induction false} AfterBoth(s: State, x: seq<Move>, y: seq<Move>)
    ensures After(s, x + y) == After(After(s, x), y)
  {
    if |y| == 0 {
      assert x + y == x;
    } else {
      var init, last := y[..|y| - 1], y[|y| - 1];
      AfterBoth(s, x, init);
      assert (x + y)[..|x + y| - 1] == x + init && (x + y)[|x + y| - 1] == last;
    }
  }

  lemma {:induction false} AfterOne(s: State, move: Move)
    ensures After(s, [move]) == Made(s, move)
  {
    assert [move][..0] == [];
  }

  lemma {:induction false} AfterStop(s: State, moves: seq<Move>)
    requires s.truncated
    ensures After(s, moves) == s
  {
    if |moves| > 0 { AfterStop(s, moves[..|moves| - 1]); }
  }

  lemma {:induction false} HeadMade(w: Where, s: State, es: seq<Explanation>)
    requires Open(s)
    ensures PushAll(w, s, es) == After(s, Says(es))
  {
    if |es| > 0 {
      var init := es[..|es| - 1];
      HeadMade(w, s, init);
      PushAllExtends(w, s, init);
      assert Says(es)[..|es| - 1] == Says(init);
    }
  }

  lemma {:induction false} TailMade(w: Where, s: State, before: Json, after: Json, keywords: seq<string>,
                                    pointer: string)
    requires Open(s)
    ensures NodeTail(w, s, before, after, keywords, pointer) ==
      After(s, Says(Tail(w, before, after, keywords, pointer)))
    decreases |keywords|
  {
    if |keywords| > 0 {
      var rest := Tail(w, before, after, keywords[1..], pointer);
      if !Changed(before, after, keywords[0]) {
        TailMade(w, s, before, after, keywords[1..], pointer);
        assert Tail(w, before, after, keywords, pointer) == rest;
      } else {
        var e := NotSupported(w, Pointers.ChildPointer(pointer, keywords[0]));
        var t := Push(w, s, e);
        assert Says([e] + rest) == [Say(e)] + Says(rest);
        AfterBoth(s, [Say(e)], Says(rest));
        AfterOne(s, Say(e));
        if t.truncated { AfterStop(t, Says(rest)); } else { TailMade(w, t, before, after, keywords[1..], pointer); }
      }
    }
  }

  lemma {:induction false} NodeMade(w: Where, s: State, before: Json, after: Json, pointer: string, depth: nat)
    requires Open(s)
    ensures Node(w, s, before, after, pointer, depth) == After(s, Moves(w, before, after, pointer, depth))
    decreases Rank(before), before, after, 1, 0
  {
    var visit, moves := Visit(w, pointer, depth), Moves(w, before, after, pointer, depth);
    assert moves == [visit] + moves[1..];
    AfterBoth(s, [visit], moves[1..]);
    AfterOne(s, visit);
    if Refused(s, depth) {
      AfterStop(Made(s, visit), moves[1..]);
    } else if before.Obj? && after.Obj? {
      ObjectMade(w, s, before, after, pointer, depth);
    } else {
      AfterOne(Counted(s, depth), Say(NotSupported(w, pointer)));
    }
  }

  /** What follows the guards of a node with two objects. */
  lemma {:induction false} ObjectMade(w: Where, s: State, before: Json, after: Json, pointer: string, depth: nat)
    requires Open(s) && !Refused(s, depth) && before.Obj? && after.Obj?
    ensures Node(w, s, before, after, pointer, depth) ==
      After(Counted(s, depth), Moves(w, before, after, pointer, depth)[1..])
    decreases Rank(before), before, after, 0, |Names(before, after)| + 1
  {
    var counted, head, names := Counted(s, depth), Head(w, before, after, pointer), Names(before, after);
    var middle, tail := MovesOfNames(w, before, after, names, pointer, depth),
        Tail(w, before, after, Keywords(before, after), pointer);
    var headed := PushAll(w, counted, head);
    var (walked, stopped) := NodeNames(w, headed, before, after, names, pointer, depth);
    HeadMade(w, counted, head);
    PushAllExtends(w, counted, head);
    if headed.truncated {
      AfterStop(headed, middle);
      AfterStop(headed, Says(tail));
      FullStops(w, headed, before, after, names, pointer, depth);
      if !stopped { FullStays(w, walked, before, after, Keywords(before, after), pointer); }
    } else {
      NamesMade(w, headed, before, after, names, pointer, depth);
      NamesExtend(w, headed, before, after, names, pointer, depth);
      if stopped {
        AfterStop(walked, Says(tail));
      } else {
        TailMade(w, walked, before, after, Keywords(before, after), pointer);
      }
    }
    AfterThree(counted, Says(head), middle, Says(tail));
    assert Moves(w, before, after, pointer, depth)[1..] == Says(head) + middle + Says(tail);
  }

  lemma {:induction false} AfterThree(s: State, x: seq<Move>, y: seq<Move>, z: seq<Move>)
    ensures After(s, x + y + z) == After(After(After(s, x), y), z)
  {
    AfterBoth(s, x + y, z);
    AfterBoth(s, x, y);
  }

  lemma {:induction false} NamesMade(w: Where, s: State, before: Json, after: Json, names: seq<string>, pointer: string,
                                     depth: nat)
    requires before.Obj? && after.Obj? && forall n :: n in names ==> n in Properties(before) || n in Properties(after)
    requires Open(s)
    ensures NodeNames(w, s, before, after, names, pointer, depth).0 ==
      After(s, MovesOfNames(w, before, after, names, pointer, depth))
    decreases Rank(before), before, after, 0, |names|
  {
    if |names| > 0 {
      var t := NodeName(w, s, before, after, names[0], pointer, depth);
      var first, rest := MovesOfName(w, before, after, names[0], pointer, depth),
          MovesOfNames(w, before, after, names[1..], pointer, depth);
      NameMade(w, s, before, after, names[0], pointer, depth);
      NameExtends(w, s, before, after, names[0], pointer, depth);
      AfterBoth(s, first, rest);
      if t.truncated { AfterStop(t, rest); } else { NamesMade(w, t, before, after, names[1..], pointer, depth); }
    }
  }

  lemma {:induction false} NameMade(w: Where, s: State, before: Json, after: Json, name: string, pointer: string,
                                    depth: nat)
    requires before.Obj? && after.Obj? && (name in Properties(before) || name in Properties(after))
    requires Open(s)
    ensures NodeName(w, s, before, after, name, pointer, depth) ==
      After(s, MovesOfName(w, before, after, name, pointer, depth))
    decreases Rank(before), before, after, 0, 0
  {
    if Property(before, name) != Property(after, name) {
      PropertyBelow(before, name);
      PropertyBelow(after, name);
      NodeMade(w, s, Property(before, name), Property(after, name), PropertyPointer(pointer, name), depth + 1);
    }
  }

  lemma {:induction false} PairMade(s: State, p: Pair)
    requires Open(s)
    ensures PairStep(s, p) == After(s, MovesOfPair(p))
  {
    if p.before != p.after {
      if p.before.Some? && p.after.Some? {
        AfterBoth(s, [Begin], Moves(p.w, p.before.value, p.after.value, "", 0));
        AfterOne(s, Begin);
        NodeMade(p.w, s.(nodes := 0), p.before.value, p.after.value, "", 0);
      } else {
        AfterOne(s, Say(NotSupported(p.w, "")));
      }
    }
  }

  lemma {:induction false} RunMade(step: (State, Pair) -> State, walk: Pair -> seq<Explanation>,
                                   moves: Pair -> seq<Move>, pairs: seq<Pair>, n: nat)
    requires n <= |pairs| && forall s, p :: Open(s) ==> Extends(s, step(s, p), walk(p))
    requires forall s, p :: Open(s) ==> step(s, p) == After(s, moves(p))
    ensures Run(step, pairs, n) == After(START, MovesOfAll(moves, pairs, n))
  {
    if n > 0 {
      var s, last := Run(step, pairs, n - 1), moves(pairs[n - 1]);
      RunMade(step, walk, moves, pairs, n - 1);
      RunExtends(step, walk, pairs, n - 1);
      AfterBoth(START, MovesOfAll(moves, pairs, n - 1), last);
      if s.truncated { AfterStop(s, last); } else { assert Open(s); }
    }
  }

  // ---------------------------------------------------------------- what the moves say

  /** What moves say, without a bound. */
  function Said(moves: seq<Move>): seq<Explanation> {
    if |moves| == 0 then [] else Said(moves[..|moves| - 1]) + SaidBy(moves[|moves| - 1])
  }

  function SaidBy(move: Move): seq<Explanation> { if move.Say? then [move.e] else [] }

  lemma {:induction false} SaidBoth(x: seq<Move>, y: seq<Move>)
    ensures Said(x + y) == Said(x) + Said(y)
  {
    if |y| == 0 {
      assert x + y == x;
    } else {
      var init, last := y[..|y| - 1], y[|y| - 1];
      SaidBoth(x, init);
      assert (x + y)[..|x + y| - 1] == x + init && (x + y)[|x + y| - 1] == last;
    }
  }

  lemma {:induction false} SaidThree(x: seq<Move>, y: seq<Move>, z: seq<Move>)
    ensures Said(x + y + z) == Said(x) + Said(y) + Said(z)
  {
    SaidBoth(x + y, z);
    SaidBoth(x, y);
  }

  lemma {:induction false} SaidOne(move: Move, rest: seq<Move>)
    ensures Said([move] + rest) == SaidBy(move) + Said(rest)
  {
    SaidBoth([move], rest);
    assert [move][..0] == [];
  }

  lemma {:induction false} SaidSays(es: seq<Explanation>)
    ensures Said(Says(es)) == es
  {
    if |es| > 0 {
      var init := es[..|es| - 1];
      SaidSays(init);
      assert Says(es)[..|es| - 1] == Says(init) && es == init + [es[|es| - 1]];
    }
  }

  lemma {:induction false} NodeSays(visit: Move, head: seq<Explanation>, middle: seq<Move>, tail: seq<Explanation>,
                                    said: seq<Explanation>)
    requires visit.Visit? && Said(middle) == said
    ensures Said([visit] + (Says(head) + middle + Says(tail))) == head + said + tail
  {
    SaidOne(visit, Says(head) + middle + Says(tail));
    SaidThree(Says(head), middle, Says(tail));
    SaidSays(head);
    SaidSays(tail);
  }

  lemma {:induction false} LeafSays(visit: Move, e: Explanation)
    requires !visit.Say?
    ensures Said([visit] + [Say(e)]) == [e]
  {
    SaidOne(visit, [Say(e)]);
    SaidOne(Say(e), []);
    assert [Say(e)] + [] == [Say(e)];
  }

  lemma {:induction false} SaysAll(w: Where, before: Json, after: Json, pointer: string, depth: nat)
    ensures Said(Moves(w, before, after, pointer, depth)) == Walk(w, before, after, pointer)
    decreases Rank(before), before, after, 1, 0
  {
    var visit := Visit(w, pointer, depth);
    if before.Obj? && after.Obj? {
      NamesSayAll(w, before, after, Names(before, after), pointer, depth);
      NodeSays(visit, Head(w, before, after, pointer),
               MovesOfNames(w, before, after, Names(before, after), pointer, depth),
               Tail(w, before, after, Keywords(before, after), pointer),
               WalkNames(w, before, after, Names(before, after), pointer));
    } else {
      LeafSays(visit, NotSupported(w, pointer));
    }
  }

  lemma {:induction false} NamesSayAll(w: Where, before: Json, after: Json, names: seq<string>, pointer: string,
                                       depth: nat)
    requires before.Obj? && after.Obj? && forall n :: n in names ==> n in Properties(before) || n in Properties(after)
    ensures Said(MovesOfNames(w, before, after, names, pointer, depth)) == WalkNames(w, before, after, names, pointer)
    decreases Rank(before), before, after, 0, |names|
  {
    if |names| > 0 {
      SaidBoth(MovesOfName(w, before, after, names[0], pointer, depth),
               MovesOfNames(w, before, after, names[1..], pointer, depth));
      NamesSayAll(w, before, after, names[1..], pointer, depth);
      NameSaysAll(w, before, after, names[0], pointer, depth);
    }
  }

  lemma {:induction false} NameSaysAll(w: Where, before: Json, after: Json, name: string, pointer: string, depth: nat)
    requires before.Obj? && after.Obj? && (name in Properties(before) || name in Properties(after))
    ensures Said(MovesOfName(w, before, after, name, pointer, depth)) == WalkName(w, before, after, name, pointer)
    decreases Rank(before), before, after, 0, 0
  {
    if Property(before, name) != Property(after, name) {
      PropertyBelow(before, name);
      PropertyBelow(after, name);
      SaysAll(w, Property(before, name), Property(after, name), PropertyPointer(pointer, name), depth + 1);
    }
  }

  lemma {:induction false} PairSaysAll(p: Pair)
    ensures Said(MovesOfPair(p)) == PairWalk(p)
  {
    if p.before != p.after {
      if p.before.Some? && p.after.Some? {
        SaidOne(Begin, Moves(p.w, p.before.value, p.after.value, "", 0));
        SaysAll(p.w, p.before.value, p.after.value, "", 0);
      } else {
        SaidSays([NotSupported(p.w, "")]);
        assert Says([NotSupported(p.w, "")]) == [Say(NotSupported(p.w, ""))];
      }
    }
  }

  lemma {:induction false} AllSaid(moves: Pair -> seq<Move>, walk: Pair -> seq<Explanation>, pairs: seq<Pair>, n: nat)
    requires n <= |pairs| && forall p :: Said(moves(p)) == walk(p)
    ensures Said(MovesOfAll(moves, pairs, n)) == Gathered(walk, pairs, n)
  {
    if n > 0 {
      AllSaid(moves, walk, pairs, n - 1);
      SaidBoth(MovesOfAll(moves, pairs, n - 1), moves(pairs[n - 1]));
    }
  }

  // ---------------------------------------------------------------- the first move without room

  /** The nodes visited by the first moves, since the last pair of schemas was begun. */
  function Visited(moves: seq<Move>, n: nat): nat
    requires n <= |moves|
  {
    if n == 0 then 0 else
    match moves[n - 1]
    case Begin => 0
    case Visit(_, _, _) => Visited(moves, n - 1) + 1
    case Say(_) => Visited(moves, n - 1)
  }

  /** There is room for a move after those before it: a visit keeps clear of the last place for an explanation. */
  predicate Fits(moves: seq<Move>, n: nat)
    requires n < |moves|
  {
    match moves[n]
    case Begin => true
    case Visit(_, _, depth) =>
      && |Said(moves[..n])| < MAX_SCHEMA_EXPLANATIONS - 1 && depth <= MAX_SCHEMA_DEPTH
      && Visited(moves, n) < MAX_SCHEMA_NODES
    case Say(_) => |Said(moves[..n])| < MAX_SCHEMA_EXPLANATIONS
  }

  predicate FirstUnfit(moves: seq<Move>, n: nat) {
    n < |moves| && !Fits(moves, n) && forall j :: 0 <= j < n ==> Fits(moves, j)
  }

  lemma {:induction false} AfterFit(moves: seq<Move>, n: nat)
    requires n <= |moves| && forall j :: 0 <= j < n ==> Fits(moves, j)
    ensures After(START, moves[..n]) == State(Visited(moves, n), Said(moves[..n]), false)
    ensures |Said(moves[..n])| <= MAX_SCHEMA_EXPLANATIONS
  {
    if n > 0 {
      AfterFit(moves, n - 1);
      assert moves[..n][..n - 1] == moves[..n - 1] && Fits(moves, n - 1);
    }
  }

  /** The state in which the walk stops: with what was said before, and a marker if there is room for one. */
  lemma {:induction false} AfterUnfit(moves: seq<Move>, n: nat)
    requires FirstUnfit(moves, n)
    ensures var t, said := After(START, moves), Said(moves[..n]);
      && t.truncated && |said| <= MAX_SCHEMA_EXPLANATIONS
      && (|said| == MAX_SCHEMA_EXPLANATIONS ==> t.out == said)
      && (|said| < MAX_SCHEMA_EXPLANATIONS ==>
            moves[n].Visit? && t.out == said + [Marker(moves[n].w, moves[n].pointer)])
  {
    AfterFit(moves, n);
    var s := Made(After(START, moves[..n]), moves[n]);
    assert moves == moves[..n] + ([moves[n]] + moves[n + 1..]);
    AfterBoth(START, moves[..n], [moves[n]] + moves[n + 1..]);
    AfterBoth(After(START, moves[..n]), [moves[n]], moves[n + 1..]);
    AfterOne(After(START, moves[..n]), moves[n]);
    AfterStop(s, moves[n + 1..]);
  }

  lemma {:induction false} FindUnfit(moves: seq<Move>, n: nat) returns (k: nat)
    requires n <= |moves|
    ensures k <= n && (forall j :: 0 <= j < k ==> Fits(moves, j)) && (k < n ==> !Fits(moves, k))
  {
    if n == 0 { return 0; }
    k := FindUnfit(moves, n - 1);
    if k == n - 1 && Fits(moves, k) { k := n; }
  }

  lemma {:induction false} AllMade(pairs: seq<Pair>)
    ensures var moves := MovesOfAll(MOVES, pairs, |pairs|);
      && Run(STEP, pairs, |pairs|) == After(START, moves)
      && Said(moves) == Gathered(WALK, pairs, |pairs|)
  {
    forall s, p | Open(s) ensures Extends(s, STEP(s, p), WALK(p)) { PairExtends(s, p); }
    forall s, p | Open(s) ensures STEP(s, p) == After(s, MOVES(p)) { PairMade(s, p); }
    RunMade(STEP, WALK, MOVES, pairs, |pairs|);
    forall p ensures Said(MOVES(p)) == WALK(p) { PairSaysAll(p); }
    AllSaid(MOVES, WALK, pairs, |pairs|);
  }

  /** The whole analysis: it is cut short exactly when some move of the unbounded walk finds no room, keeps what was
   *  said before the first such move, and adds a marker exactly if the list was not full by then. */
  lemma {:induction false} StopsIff(pairs: seq<Pair>)
    ensures var t, moves := Run(STEP, pairs, |pairs|), MovesOfAll(MOVES, pairs, |pairs|);
      && (t.truncated <==> exists n: nat :: FirstUnfit(moves, n))
      && (!t.truncated ==> t.out == Said(moves))
      && forall n: nat :: FirstUnfit(moves, n) ==>
           && (t.out == Said(moves[..n]) <==> |Said(moves[..n])| == MAX_SCHEMA_EXPLANATIONS)
           && (|Said(moves[..n])| < MAX_SCHEMA_EXPLANATIONS ==>
                 moves[n].Visit? && t.out == Said(moves[..n]) + [Marker(moves[n].w, moves[n].pointer)])
  {
    var t, moves := Run(STEP, pairs, |pairs|), MovesOfAll(MOVES, pairs, |pairs|);
    AllMade(pairs);
    var k := FindUnfit(moves, |moves|);
    if k < |moves| {
      assert FirstUnfit(moves, k);
      AfterUnfit(moves, k);
    } else {
      AfterFit(moves, k);
      assert moves[..k] == moves;
    }
    forall n: nat | FirstUnfit(moves, n) ensures n == k {}
  }

  // ---------------------------------------------------------------- no marker

  lemma {:induction false} WalkUnmarked(w: Where, before: Json, after: Json, pointer: string)
    ensures Unmarked(Walk(w, before, after, pointer))
    decreases Rank(before), before, after, 1, 0
  {
    if before.Obj? && after.Obj? {
      var middle := WalkNames(w, before, after, Names(before, after), pointer);
      HeadUnmarked(w, before, after, pointer);
      NamesUnmarked(w, before, after, Names(before, after), pointer);
      TailUnmarked(w, before, after, Keywords(before, after), pointer);
      UnmarkedBoth(Head(w, before, after, pointer), middle);
      UnmarkedBoth(Head(w, before, after, pointer) + middle,
                   Tail(w, before, after, Keywords(before, after), pointer));
    }
  }

  lemma {:induction false} NamesUnmarked(w: Where, before: Json, after: Json, names: seq<string>, pointer: string)
    requires before.Obj? && after.Obj? && forall n :: n in names ==> n in Properties(before) || n in Properties(after)
    ensures Unmarked(WalkNames(w, before, after, names, pointer))
    decreases Rank(before), before, after, 0, |names|
  {
    if |names| > 0 {
      NamesUnmarked(w, before, after, names[1..], pointer);
      if Property(before, names[0]) != Property(after, names[0]) {
        PropertyBelow(before, names[0]);
        PropertyBelow(after, names[0]);
        WalkUnmarked(w, Property(before, names[0]), Property(after, names[0]), PropertyPointer(pointer, names[0]));
      }
      UnmarkedBoth(WalkName(w, before, after, names[0], pointer), WalkNames(w, before, after, names[1..], pointer));
    }
  }

  lemma {:induction false} GatheredUnmarked(walk: Pair -> seq<Explanation>, pairs: seq<Pair>, n: nat)
    requires n <= |pairs| && forall p :: Unmarked(walk(p))
    ensures Unmarked(Gathered(walk, pairs, n))
  {
    if n > 0 {
      GatheredUnmarked(walk, pairs, n - 1);
      UnmarkedBoth(Gathered(walk, pairs, n - 1), walk(pairs[n - 1]));
    }
  }

  lemma {:induction false} SaidWithin(moves: seq<Move>, n: nat)
    requires n <= |moves| && Unmarked(Said(moves))
    ensures Unmarked(Said(moves[..n]))
  {
    assert moves == moves[..n] + moves[n..];
    SaidBoth(moves[..n], moves[n..]);
    forall e | e in Said(moves[..n]) ensures !e.rule.AnalysisLimit? { assert e in Said(moves); }
  }

  lemma {:induction false} UnmarkedAt(moves: seq<Move>, n: nat)
    requires FirstUnfit(moves, n) && Unmarked(Said(moves))
    ensures Unmarked(After(START, moves).out) <==> |Said(moves[..n])| == MAX_SCHEMA_EXPLANATIONS
  {
    var t, said := After(START, moves), Said(moves[..n]);
    AfterUnfit(moves, n);
    SaidWithin(moves, n);
    if |said| < MAX_SCHEMA_EXPLANATIONS {
      assert t.out[|t.out| - 1] == Marker(moves[n].w, moves[n].pointer);
    }
  }

  lemma {:induction false} AllUnmarked(pairs: seq<Pair>)
    ensures Unmarked(Gathered(WALK, pairs, |pairs|))
  {
    forall p ensures Unmarked(WALK(p)) {
      if p.before != p.after && p.before.Some? && p.after.Some? {
        WalkUnmarked(p.w, p.before.value, p.after.value, "");
      }
    }
    GatheredUnmarked(WALK, pairs, |pairs|);
  }

  /** A truncated analysis says nothing of its limit exactly when 100 explanations were said before the first move that
   *  found no room. */
  lemma {:induction false} UnmarkedIff(pairs: seq<Pair>)
    ensures var t, moves := Run(STEP, pairs, |pairs|), MovesOfAll(MOVES, pairs, |pairs|);
      t.truncated && Unmarked(t.out) <==>
        exists n: nat :: FirstUnfit(moves, n) && |Said(moves[..n])| == MAX_SCHEMA_EXPLANATIONS
  {
    StopsIff(pairs);
    AllMade(pairs);
    AllUnmarked(pairs);
    forall n: nat | FirstUnfit(MovesOfAll(MOVES, pairs, |pairs|), n)
      ensures Unmarked(Run(STEP, pairs, |pairs|).out) <==>
          |Said(MovesOfAll(MOVES, pairs, |pairs|)[..n])| == MAX_SCHEMA_EXPLANATIONS
    {
      UnmarkedAt(MovesOfAll(MOVES, pairs, |pairs|), n);
    }
  }
}
