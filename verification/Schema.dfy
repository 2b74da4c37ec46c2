/** Explaining changes between two JSON schemas by a bounded walk. */
module Schema {
  import opened Json
  import opened Pointers

  const MAX_SCHEMA_DEPTH := 16
  const MAX_SCHEMA_NODES := 2048
  const MAX_SCHEMA_EXPLANATIONS := 100

  datatype Kind = Input | Output

  datatype Classification = PotentiallyBreaking | PotentiallyNonBreaking | Ambiguous | Unclassified

  datatype Rule =
    | TypeNarrowed | TypeWidened | TypeChanged
    | RequiredAdded | RequiredRemoved
    | AdditionalClosed | AdditionalOpened
    | EnumNarrowed | EnumWidened | EnumChanged
    | Unsupported | AnalysisLimit

  datatype Explanation = Explanation(tool: string, kind: Kind, pointer: string, rule: Rule,
                                     classification: Classification)

  /** The tool and the direction a walk belongs to. */
  datatype Where = Where(tool: string, kind: Kind)

  /** For an output schema every classified change is ambiguous. */
  function Explained(w: Where, pointer: string, rule: Rule, classification: Classification): Explanation {
    Explanation(w.tool, w.kind, pointer, rule,
                if w.kind.Output? && !classification.Unclassified? then Ambiguous else classification)
  }

  function NotSupported(w: Where, pointer: string): Explanation { Explained(w, pointer, Unsupported, Unclassified) }

  function Marker(w: Where, pointer: string): Explanation {
    Explanation(w.tool, w.kind, pointer, AnalysisLimit, Unclassified)
  }

  // ---------------------------------------------------------------- reading the keywords

  const KNOWN_TYPES: set<string> := {"null", "boolean", "object", "array", "number", "integer", "string"}

  function Strings(values: seq<Json>): Option<seq<string>> {
    if forall i :: 0 <= i < |values| ==> values[i].Str? then
      Some(seq(|values|, i requires 0 <= i < |values| => values[i].s))
    else None
  }

  predicate Unique(names: seq<string>) { forall i, j :: 0 <= i < j < |names| ==> names[i] != names[j] }

  /** None: not a shape the analyzer reads. Some(None): any type. */
  function ParseTypes(value: Option<Json>): Option<Option<set<string>>> {
    match value
    case None => Some(None)
    case Some(Str(name)) => if name in KNOWN_TYPES then Some(Some({name})) else None
    case Some(Arr(values)) =>
      if |values| == 0 || |values| > 7 then None else
      (match Strings(values)
       case None => None
       case Some(names) =>
         if Unique(names) && forall n :: n in names ==> n in KNOWN_TYPES then Some(Some(set n | n in names)) else None)
    case Some(_) => None
  }

  /** Integers are numbers. */
  predicate TypesWithin(candidate: Option<set<string>>, baseline: Option<set<string>>) {
    match (candidate, baseline)
    case (None, _) => baseline.None?
    case (_, None) => true
    case (Some(c), Some(b)) => forall t :: t in c ==> t in b || (t == "integer" && "number" in b)
  }

  function ParseRequired(value: Option<Json>): Option<set<string>> {
    match value
    case None => Some({})
    case Some(Arr(values)) =>
      if |values| > MAX_SCHEMA_NODES then None else
      (match Strings(values)
       case None => None
       case Some(names) => if Unique(names) then Some(set n | n in names) else None)
    case Some(_) => None
  }

  /** Enum members by their text. */
  function ParseEnum(value: Option<Json>): Option<Option<set<string>>> {
    match value
    case None => Some(None)
    case Some(Arr(values)) =>
      if |values| == 0 || |values| > MAX_SCHEMA_NODES then None else
      var texts := seq(|values|, i requires 0 <= i < |values| => Text(values[i]));
      if Unique(texts) then Some(Some(set t | t in texts)) else None
    case Some(_) => None
  }

  predicate EnumWithin(candidate: Option<set<string>>, baseline: Option<set<string>>) {
    match (candidate, baseline)
    case (Some(c), Some(b)) => c <= b
    case (Some(_), None) => true
    case (None, _) => baseline.None?
  }

  datatype Additional = Allow | Deny | Constrained

  function ParseAdditional(value: Option<Json>): Option<Additional> {
    match value
    case None => Some(Allow)
    case Some(Bool(b)) => Some(if b then Allow else Deny)
    case Some(Obj(_)) => Some(Constrained)
    case Some(_) => None
  }

  // ---------------------------------------------------------------- what one node says

  function TypePart(w: Where, before: Json, after: Json, pointer: string): seq<Explanation> {
    var at := ChildPointer(pointer, "type");
    if before.Get("type") == after.Get("type") then [] else
    match (ParseTypes(before.Get("type")), ParseTypes(after.Get("type")))
    case (Some(b), Some(a)) =>
      if b == a then [] else
      [match (TypesWithin(a, b), TypesWithin(b, a))
       case (true, false) => Explained(w, at, TypeNarrowed, PotentiallyBreaking)
       case (false, true) => Explained(w, at, TypeWidened, PotentiallyNonBreaking)
       case _ => Explained(w, at, TypeChanged, Ambiguous)]
    case _ => [NotSupported(w, at)]
  }

  function PropertyPointer(pointer: string, name: string): string {
    ChildPointer(ChildPointer(pointer, "properties"), name)
  }

  function RequiredChanges(w: Where, names: seq<string>, rule: Rule, classification: Classification,
                           pointer: string): seq<Explanation> {
    seq(|names|, i requires 0 <= i < |names| => Explained(w, PropertyPointer(pointer, names[i]), rule, classification))
  }

  function RequiredDiff(w: Where, before: set<string>, after: set<string>, pointer: string): seq<Explanation> {
    RequiredChanges(w, SortedKeys(after - before), RequiredAdded, PotentiallyBreaking, pointer)
    + RequiredChanges(w, SortedKeys(before - after), RequiredRemoved, PotentiallyNonBreaking, pointer)
  }

  function RequiredPart(w: Where, before: Json, after: Json, pointer: string): seq<Explanation> {
    if before.Get("required") == after.Get("required") then [] else
    match (ParseRequired(before.Get("required")), ParseRequired(after.Get("required")))
    case (Some(b), Some(a)) => RequiredDiff(w, b, a, pointer)
    case _ => [NotSupported(w, ChildPointer(pointer, "required"))]
  }

  function AdditionalChange(w: Where, at: string, before: Option<Json>, after: Option<Json>): seq<Explanation> {
    if before == after then [] else
    match (ParseAdditional(before), ParseAdditional(after))
    case (Some(b), Some(a)) =>
      if b == a then []
      else if b.Constrained? || a.Constrained? then [NotSupported(w, at)]
      else if b.Allow? then [Explained(w, at, AdditionalClosed, PotentiallyBreaking)]
      else [Explained(w, at, AdditionalOpened, PotentiallyNonBreaking)]
    case _ => [NotSupported(w, at)]
  }

  function AdditionalPart(w: Where, before: Json, after: Json, pointer: string): seq<Explanation> {
    AdditionalChange(w, ChildPointer(pointer, "additionalProperties"), before.Get("additionalProperties"),
                     after.Get("additionalProperties"))
  }

  function EnumPart(w: Where, before: Json, after: Json, pointer: string): seq<Explanation> {
    var at := ChildPointer(pointer, "enum");
    if before.Get("enum") == after.Get("enum") then [] else
    match (ParseEnum(before.Get("enum")), ParseEnum(after.Get("enum")))
    case (Some(b), Some(a)) =>
      if b == a then [] else
      [match (EnumWithin(a, b), EnumWithin(b, a))
       case (true, false) => Explained(w, at, EnumNarrowed, PotentiallyBreaking)
       case (false, true) => Explained(w, at, EnumWidened, PotentiallyNonBreaking)
       case _ => Explained(w, at, EnumChanged, Ambiguous)]
    case _ => [NotSupported(w, at)]
  }

  /** `properties`, when given, is an object. */
  predicate PropertiesReadable(schema: Json) {
    match schema.Get("properties") case None => true case Some(p) => p.Obj?
  }

  function PropertiesPart(w: Where, before: Json, after: Json, pointer: string): seq<Explanation> {
    if PropertiesReadable(before) && PropertiesReadable(after) then []
    else [NotSupported(w, ChildPointer(pointer, "properties"))]
  }

  function Head(w: Where, before: Json, after: Json, pointer: string): seq<Explanation> {
    TypePart(w, before, after, pointer) + RequiredPart(w, before, after, pointer)
      + AdditionalPart(w, before, after, pointer)
    + EnumPart(w, before, after, pointer) + PropertiesPart(w, before, after, pointer)
  }

  function Properties(schema: Json): map<string, Json> {
    match schema.Get("properties") case Some(Obj(fields)) => fields case _ => map[]
  }

  const UNCONSTRAINED := Obj(map[])

  /** An undeclared property is unconstrained. */
  function Property(schema: Json, name: string): Json {
    if name in Properties(schema) then Properties(schema)[name] else UNCONSTRAINED
  }

  function Rank(schema: Json): nat { if schema == UNCONSTRAINED then 0 else 1 }

  lemma {:induction false} PropertyBelow(schema: Json, name: string)
    requires schema.Obj?
    ensures if name in Properties(schema) then Property(schema, name) < schema && Rank(schema) == 1
      else Property(schema, name) == UNCONSTRAINED
  {
  }

  function Names(before: Json, after: Json): seq<string> {
    if PropertiesReadable(before) && PropertiesReadable(after)
    then SortedKeys(Properties(before).Keys + Properties(after).Keys) else []
  }

  const KNOWN_KEYWORDS: set<string> := {"type", "required", "properties", "additionalProperties", "enum"}

  function Keywords(before: Json, after: Json): seq<string>
    requires before.Obj? && after.Obj?
  {
    SortedKeys(before.fields.Keys + after.fields.Keys)
  }

  predicate Changed(before: Json, after: Json, keyword: string) {
    keyword !in KNOWN_KEYWORDS && before.Get(keyword) != after.Get(keyword)
  }

  function Tail(w: Where, before: Json, after: Json, keywords: seq<string>, pointer: string): seq<Explanation> {
    if |keywords| == 0 then [] else
    (if Changed(before, after, keywords[0]) then [NotSupported(w, ChildPointer(pointer, keywords[0]))] else [])
    + Tail(w, before, after, keywords[1..], pointer)
  }

  // ---------------------------------------------------------------- the walk without bounds

  function Walk(w: Where, before: Json, after: Json, pointer: string): seq<Explanation>
    decreases Rank(before), before, after, 1, 0
  {
    if !before.Obj? || !after.Obj? then [NotSupported(w, pointer)] else
    Head(w, before, after, pointer)
    + WalkNames(w, before, after, Names(before, after), pointer)
    + Tail(w, before, after, Keywords(before, after), pointer)
  }

  function WalkNames(w: Where, before: Json, after: Json, names: seq<string>, pointer: string): seq<Explanation>
    requires before.Obj? && after.Obj? && forall n :: n in names ==> n in Properties(before) || n in Properties(after)
    decreases Rank(before), before, after, 0, |names|
  {
    if |names| == 0 then [] else
    WalkName(w, before, after, names[0], pointer) + WalkNames(w, before, after, names[1..], pointer)
  }

  function WalkName(w: Where, before: Json, after: Json, name: string, pointer: string): seq<Explanation>
    requires before.Obj? && after.Obj? && (name in Properties(before) || name in Properties(after))
    decreases Rank(before), before, after, 0, 0
  {
    if Property(before, name) == Property(after, name) then [] else
    PropertyBelow(before, name);
    PropertyBelow(after, name);
    Walk(w, Property(before, name), Property(after, name), PropertyPointer(pointer, name))
  }

  // ---------------------------------------------------------------- the bounded walk

  datatype State = State(nodes: nat, out: seq<Explanation>, truncated: bool)

  function PushLimit(w: Where, s: State, pointer: string): State {
    State(s.nodes, if |s.out| < MAX_SCHEMA_EXPLANATIONS then s.out + [Marker(w, pointer)] else s.out, true)
  }

  function Push(w: Where, s: State, e: Explanation): State {
    if |s.out| >= MAX_SCHEMA_EXPLANATIONS then PushLimit(w, s, e.pointer) else s.(out := s.out + [e])
  }

  function PushAll(w: Where, s: State, es: seq<Explanation>): State {
    if |es| == 0 then s else Push(w, PushAll(w, s, es[..|es| - 1]), es[|es| - 1])
  }

  /** The three guards, in order; a node that passes them is counted. */
  predicate Refused(s: State, depth: nat) {
    |s.out| >= MAX_SCHEMA_EXPLANATIONS - 1 || depth > MAX_SCHEMA_DEPTH || s.nodes + 1 > MAX_SCHEMA_NODES
  }

  function Counted(s: State, depth: nat): State {
    if |s.out| >= MAX_SCHEMA_EXPLANATIONS - 1 || depth > MAX_SCHEMA_DEPTH then s else s.(nodes := s.nodes + 1)
  }

  function Node(w: Where, s: State, before: Json, after: Json, pointer: string, depth: nat): State
    decreases Rank(before), before, after, 1, 0
  {
    var counted := Counted(s, depth);
    if Refused(s, depth) then PushLimit(w, counted, pointer)
    else if !before.Obj? || !after.Obj? then Push(w, counted, NotSupported(w, pointer))
    else
      var headed := PushAll(w, counted, Head(w, before, after, pointer));
      var (walked, stopped) := NodeNames(w, headed, before, after, Names(before, after), pointer, depth);
      if stopped then walked else NodeTail(w, walked, before, after, Keywords(before, after), pointer)
  }

  /** The second result says that the walk stopped for a limit. */
  function NodeNames(w: Where, s: State, before: Json, after: Json, names: seq<string>, pointer: string, depth: nat):
    (State, bool)
    requires before.Obj? && after.Obj? && forall n :: n in names ==> n in Properties(before) || n in Properties(after)
    decreases Rank(before), before, after, 0, |names|
  {
    if |names| == 0 then (s, false) else
    var t := NodeName(w, s, before, after, names[0], pointer, depth);
    if t.truncated then (t, true) else NodeNames(w, t, before, after, names[1..], pointer, depth)
  }

  function NodeName(w: Where, s: State, before: Json, after: Json, name: string, pointer: string, depth: nat): State
    requires before.Obj? && after.Obj? && (name in Properties(before) || name in Properties(after))
    decreases Rank(before), before, after, 0, 0
  {
    if Property(before, name) == Property(after, name) then s else
    PropertyBelow(before, name);
    PropertyBelow(after, name);
    Node(w, s, Property(before, name), Property(after, name), PropertyPointer(pointer, name), depth + 1)
  }

  function NodeTail(w: Where, s: State, before: Json, after: Json, keywords: seq<string>, pointer: string): State
    decreases |keywords|
  {
    if |keywords| == 0 then s
    else if !Changed(before, after, keywords[0]) then NodeTail(w, s, before, after, keywords[1..], pointer)
    else
      var t := Push(w, s, NotSupported(w, ChildPointer(pointer, keywords[0])));
      if t.truncated then t else NodeTail(w, t, before, after, keywords[1..], pointer)
  }

  // ---------------------------------------------------------------- the method

  method PushEach(w: Where, s: State, es: seq<Explanation>) returns (t: State)
    ensures t == PushAll(w, s, es)
  {
    t := s;
    for i := 0 to |es|
      invariant t == PushAll(w, s, es[..i])
    {
      assert es[..i + 1][..i] == es[..i];
      t := Push(w, t, es[i]);
    }
    assert es[..|es|] == es;
  }

  /** `analyze_schema_node`: guards, keywords, then the properties in key order, then every other changed keyword. */
  method AnalyzeSchemaNode(w: Where, s: State, before: Json, after: Json, pointer: string, depth: nat)
    returns (t: State)
    ensures t == Node(w, s, before, after, pointer, depth)
    decreases Rank(before), before, after, 1
  {
    if |s.out| >= MAX_SCHEMA_EXPLANATIONS - 1 { return PushLimit(w, s, pointer); }
    if depth > MAX_SCHEMA_DEPTH { return PushLimit(w, s, pointer); }
    t := s.(nodes := s.nodes + 1);
    if t.nodes > MAX_SCHEMA_NODES { return PushLimit(w, t, pointer); }
    if !before.Obj? || !after.Obj? { return Push(w, t, NotSupported(w, pointer)); }
    t := PushEach(w, t, Head(w, before, after, pointer));
    var stopped;
    t, stopped := AnalyzeProperties(w, t, before, after, pointer, depth);
    if stopped { return t; }
    t := AnalyzeKeywords(w, t, before, after, pointer);
  }

  method AnalyzeProperties(w: Where, s: State, before: Json, after: Json, pointer: string, depth: nat)
    returns (t: State, stopped: bool)
    requires before.Obj? && after.Obj?
    ensures (t, stopped) == NodeNames(w, s, before, after, Names(before, after), pointer, depth)
    decreases Rank(before), before, after, 0, 1
  {
    t, stopped := s, false;
    var rest := Names(before, after);
    while |rest| > 0
      invariant forall n :: n in rest ==> n in Properties(before) || n in Properties(after)
      invariant NodeNames(w, s, before, after, Names(before, after), pointer, depth)
        == NodeNames(w, t, before, after, rest, pointer, depth)
      decreases |rest|
    {
      t := AnalyzeProperty(w, t, before, after, rest[0], pointer, depth);
      if t.truncated { return t, true; }
      rest := rest[1..];
    }
  }

  method AnalyzeProperty(w: Where, s: State, before: Json, after: Json, name: string, pointer: string, depth: nat)
    returns (t: State)
    requires before.Obj? && after.Obj? && (name in Properties(before) || name in Properties(after))
    ensures t == NodeName(w, s, before, after, name, pointer, depth)
    decreases Rank(before), before, after, 0, 0
  {
    t := s;
    if Property(before, name) != Property(after, name) {
      PropertyBelow(before, name);
      PropertyBelow(after, name);
      t := AnalyzeSchemaNode(w, s, Property(before, name), Property(after, name), PropertyPointer(pointer, name),
                             depth + 1);
    }
  }

  method AnalyzeKeywords(w: Where, s: State, before: Json, after: Json, pointer: string) returns (t: State)
    requires before.Obj? && after.Obj?
    ensures t == NodeTail(w, s, before, after, Keywords(before, after), pointer)
  {
    t := s;
    var keywords := Keywords(before, after);
    assert keywords[0..] == keywords;
    for i := 0 to |keywords|
      invariant NodeTail(w, s, before, after, keywords, pointer) ==
        NodeTail(w, t, before, after, keywords[i..], pointer)
    {
      assert keywords[i..][0] == keywords[i] && keywords[i..][1..] == keywords[i + 1..];
      if Changed(before, after, keywords[i]) {
        t := Push(w, t, NotSupported(w, ChildPointer(pointer, keywords[i])));
        if t.truncated { return t; }
      }
    }
  }

  // ---------------------------------------------------------------- the bounded walk refines the unbounded one

  /** A prefix of the whole list, or one with a limit marker after it. */
  predicate Cut(out: seq<Explanation>, all: seq<Explanation>) {
    out <= all || (|out| > 0 && out[..|out| - 1] <= all && out[|out| - 1].rule.AnalysisLimit?)
  }

  /** From `s` to `t` the walk has added the list, or part of it, and kept within the cap. */
  predicate Extends(s: State, t: State, u: seq<Explanation>) {
    && |t.out| <= MAX_SCHEMA_EXPLANATIONS
    && (!t.truncated ==> t.out == s.out + u)
    && (t.truncated ==> Cut(t.out, s.out + u))
  }

  predicate Open(s: State) { !s.truncated && |s.out| <= MAX_SCHEMA_EXPLANATIONS }

  /** Nothing more can be added. */
  predicate Full(s: State) { s.truncated && |s.out| == MAX_SCHEMA_EXPLANATIONS }

  lemma {:induction false} CutMore(out: seq<Explanation>, all: seq<Explanation>, more: seq<Explanation>)
    requires Cut(out, all)
    ensures Cut(out, all + more)
  {
  }

  lemma {:induction false} ExtendsMore(s: State, t: State, u: seq<Explanation>, more: seq<Explanation>)
    requires Extends(s, t, u) && t.truncated
    ensures Extends(s, t, u + more)
  {
    CutMore(t.out, s.out + u, more);
    assert s.out + u + more == s.out + (u + more);
  }

  lemma {:induction false} ExtendsTwice(s: State, t: State, v: State, u: seq<Explanation>, more: seq<Explanation>)
    requires Extends(s, t, u) && !t.truncated && Extends(t, v, more)
    ensures Extends(s, v, u + more)
  {
    assert s.out + u + more == s.out + (u + more);
  }

  lemma {:induction false} LimitExtends(w: Where, s: State, t: State, pointer: string, u: seq<Explanation>)
    requires Open(s) && t.out == s.out
    ensures Extends(s, PushLimit(w, t, pointer), u) && PushLimit(w, t, pointer).truncated
  {
  }

  lemma {:induction false} PushAllExtends(w: Where, s: State, es: seq<Explanation>)
    requires Open(s)
    ensures var t := PushAll(w, s, es);
      && Extends(s, t, es) && t.nodes == s.nodes
      && (t.truncated ==> Full(t) && t.out <= s.out + es && |s.out| + |es| > MAX_SCHEMA_EXPLANATIONS)
  {
    if |es| > 0 {
      var init, last := es[..|es| - 1], es[|es| - 1];
      PushAllExtends(w, s, init);
      assert es == init + [last] && s.out + init + [last] == s.out + es;
    }
  }

  lemma {:induction false} FullStays(w: Where, s: State, before: Json, after: Json, keywords: seq<string>,
                                     pointer: string)
    requires Full(s)
    ensures NodeTail(w, s, before, after, keywords, pointer) == s
    decreases |keywords|
  {
    if |keywords| > 0 && !Changed(before, after, keywords[0]) {
      FullStays(w, s, before, after, keywords[1..], pointer);
    }
  }

  lemma {:induction false} FullNode(w: Where, s: State, before: Json, after: Json, pointer: string, depth: nat)
    requires Full(s)
    ensures Node(w, s, before, after, pointer, depth) == s
  {
    assert Refused(s, depth);
  }

  lemma {:induction false} FullStops(w: Where, s: State, before: Json, after: Json, names: seq<string>, pointer: string,
                                     depth: nat)
    requires before.Obj? && after.Obj? && forall n :: n in names ==> n in Properties(before) || n in Properties(after)
    requires Full(s)
    ensures NodeNames(w, s, before, after, names, pointer, depth).0 == s
  {
    if |names| > 0 {
      FullNode(w, s, Property(before, names[0]), Property(after, names[0]), PropertyPointer(pointer, names[0]),
               depth + 1);
    }
  }

  lemma {:induction false} TailExtends(w: Where, s: State, before: Json, after: Json, keywords: seq<string>,
                                       pointer: string)
    requires Open(s)
    ensures Extends(s, NodeTail(w, s, before, after, keywords, pointer), Tail(w, before, after, keywords, pointer))
    decreases |keywords|
  {
    if |keywords| > 0 {
      var rest := Tail(w, before, after, keywords[1..], pointer);
      if !Changed(before, after, keywords[0]) {
        TailExtends(w, s, before, after, keywords[1..], pointer);
        assert Tail(w, before, after, keywords, pointer) == rest;
      } else {
        var e := NotSupported(w, ChildPointer(pointer, keywords[0]));
        var t := Push(w, s, e);
        assert Extends(s, t, [e]);
        if t.truncated {
          ExtendsMore(s, t, [e], rest);
        } else {
          TailExtends(w, t, before, after, keywords[1..], pointer);
          ExtendsTwice(s, t, NodeTail(w, t, before, after, keywords[1..], pointer), [e], rest);
        }
      }
    }
  }

  /** Three parts, each extending the state unless the one before was cut short, extend it together. */
  lemma {:induction false} ExtendsThrice(s: State, headed: State, walked: State, t: State, head: seq<Explanation>,
                                         middle: seq<Explanation>, tail: seq<Explanation>)
    requires Extends(s, headed, head)
    requires headed.truncated ==> t.truncated && t.out == headed.out
    requires !headed.truncated ==> Extends(headed, walked, middle)
    requires !headed.truncated && walked.truncated ==> t == walked
    requires !headed.truncated && !walked.truncated ==> Extends(walked, t, tail)
    ensures Extends(s, t, head + middle + tail)
  {
    if headed.truncated {
      ExtendsMore(s, headed, head, middle);
      ExtendsMore(s, headed, head + middle, tail);
    } else {
      ExtendsTwice(s, headed, walked, head, middle);
      if walked.truncated {
        ExtendsMore(s, walked, head + middle, tail);
      } else {
        ExtendsTwice(s, walked, t, head + middle, tail);
      }
    }
  }

  /** The bounded walk of a node adds the unbounded walk's list; cut short, it adds a prefix of it and at most one limit
   *  marker. */
  lemma {:induction false} NodeExtends(w: Where, s: State, before: Json, after: Json, pointer: string, depth: nat)
    requires Open(s)
    ensures Extends(s, Node(w, s, before, after, pointer, depth), Walk(w, before, after, pointer))
    decreases Rank(before), before, after, 1, 0
  {
    if Refused(s, depth) {
      LimitExtends(w, s, Counted(s, depth), pointer, Walk(w, before, after, pointer));
    } else if before.Obj? && after.Obj? {
      ObjectExtends(w, s, before, after, pointer, depth);
    }
  }

  lemma {:induction false} ObjectExtends(w: Where, s: State, before: Json, after: Json, pointer: string, depth: nat)
    requires Open(s) && !Refused(s, depth) && before.Obj? && after.Obj?
    ensures Extends(s, Node(w, s, before, after, pointer, depth), Walk(w, before, after, pointer))
    decreases Rank(before), before, after, 0, |Names(before, after)| + 1
  {
    var counted, head, names := Counted(s, depth), Head(w, before, after, pointer), Names(before, after);
    var headed := PushAll(w, counted, head);
    var (walked, stopped) := NodeNames(w, headed, before, after, names, pointer, depth);
    var t := if stopped then walked else NodeTail(w, walked, before, after, Keywords(before, after), pointer);
    PushAllExtends(w, counted, head);
    if headed.truncated {
      FullStops(w, headed, before, after, names, pointer, depth);
      if !stopped { FullStays(w, walked, before, after, Keywords(before, after), pointer); }
    } else {
      NamesExtend(w, headed, before, after, names, pointer, depth);
      if !stopped { TailExtends(w, walked, before, after, Keywords(before, after), pointer); }
    }
    ExtendsThrice(counted, headed, walked, t, head, WalkNames(w, before, after, names, pointer),
                  Tail(w, before, after, Keywords(before, after), pointer));
  }

  lemma {:induction false} NamesExtend(w: Where, s: State, before: Json, after: Json, names: seq<string>,
                                       pointer: string, depth: nat)
    requires before.Obj? && after.Obj? && forall n :: n in names ==> n in Properties(before) || n in Properties(after)
    requires Open(s)
    ensures var (t, stopped) := NodeNames(w, s, before, after, names, pointer, depth);
      Extends(s, t, WalkNames(w, before, after, names, pointer)) && (stopped <==> t.truncated)
    decreases Rank(before), before, after, 0, |names|
  {
    if |names| > 0 {
      var t := NodeName(w, s, before, after, names[0], pointer, depth);
      var first, rest := WalkName(w, before, after, names[0], pointer),
          WalkNames(w, before, after, names[1..], pointer);
      NameExtends(w, s, before, after, names[0], pointer, depth);
      if t.truncated {
        ExtendsMore(s, t, first, rest);
      } else {
        NamesExtend(w, t, before, after, names[1..], pointer, depth);
        ExtendsTwice(s, t, NodeNames(w, t, before, after, names[1..], pointer, depth).0, first, rest);
      }
    }
  }

  lemma {:induction false} NameExtends(w: Where, s: State, before: Json, after: Json, name: string, pointer: string,
                                       depth: nat)
    requires before.Obj? && after.Obj? && (name in Properties(before) || name in Properties(after))
    requires Open(s)
    ensures Extends(s, NodeName(w, s, before, after, name, pointer, depth), WalkName(w, before, after, name, pointer))
    decreases Rank(before), before, after, 0, 0
  {
    if Property(before, name) != Property(after, name) {
      PropertyBelow(before, name);
      PropertyBelow(after, name);
      NodeExtends(w, s, Property(before, name), Property(after, name), PropertyPointer(pointer, name), depth + 1);
    } else {
      assert s.out + [] == s.out;
    }
  }

  // ---------------------------------------------------------------- over two tool catalogs

  datatype Tool = Tool(input: Option<Json>, output: Option<Json>)

  datatype Catalog = Catalog(tools: map<string, Tool>, complete: bool)

  datatype Status = Complete | IncompleteCatalog | Truncated

  datatype Analysis = Analysis(status: Status, explanations: seq<Explanation>)

  /** Two versions of one schema of one tool. */
  datatype Pair = Pair(w: Where, before: Option<Json>, after: Option<Json>)

  /** Both schemas of every tool that both catalogs have, tools in name order. */
  function Pairs(baseline: Catalog, candidate: Catalog, names: seq<string>): seq<Pair>
    requires forall n :: n in names ==> n in baseline.tools
  {
    if |names| == 0 then [] else
    var name, before := names[0], baseline.tools[names[0]];
    (if name !in candidate.tools then [] else
     [Pair(Where(name, Input), before.input, candidate.tools[name].input),
      Pair(Where(name, Output), before.output, candidate.tools[name].output)])
    + Pairs(baseline, candidate, names[1..])
  }

  function PairWalk(p: Pair): seq<Explanation> {
    if p.before == p.after then []
    else if p.before.Some? && p.after.Some? then Walk(p.w, p.before.value, p.after.value, "")
    else [NotSupported(p.w, "")]
  }

  /** Everything the unbounded walk says of the first `n` pairs. */
  function Gathered(walk: Pair -> seq<Explanation>, pairs: seq<Pair>, n: nat): seq<Explanation>
    requires n <= |pairs|
  {
    if n == 0 then [] else Gathered(walk, pairs, n - 1) + walk(pairs[n - 1])
  }

  const WALK: Pair -> seq<Explanation> := p => PairWalk(p)

  const START := State(0, [], false)

  /** Nodes are counted per schema, explanations over the whole analysis. */
  function PairStep(s: State, p: Pair): State {
    if p.before == p.after then s
    else if p.before.Some? && p.after.Some? then Node(p.w, s.(nodes := 0), p.before.value, p.after.value, "", 0)
    else Push(p.w, s, NotSupported(p.w, ""))
  }

  /** One pair after the other, up to the first that is cut short. */
  function Run(step: (State, Pair) -> State, pairs: seq<Pair>, n: nat): State
    requires n <= |pairs|
  {
    if n == 0 then START else
    var s := Run(step, pairs, n - 1);
    if s.truncated then s else step(s, pairs[n - 1])
  }

  const STEP: (State, Pair) -> State := (s, p) => PairStep(s, p)

  function Compared(baseline: Catalog, candidate: Catalog): seq<Pair> {
    Pairs(baseline, candidate, SortedKeys(baseline.tools.Keys))
  }

  /** `explain_tool_schema_changes` up to its final sort. */
  method ExplainToolSchemaChanges(baseline: Catalog, candidate: Catalog) returns (r: Analysis)
    ensures !(baseline.complete && candidate.complete) ==> r == Analysis(IncompleteCatalog, [])
    ensures baseline.complete && candidate.complete ==>
      var pairs := Compared(baseline, candidate);
      var s := Run(STEP, pairs, |pairs|);
      r == Analysis(if s.truncated then Truncated else Complete, s.out)
  {
    if !baseline.complete || !candidate.complete { return Analysis(IncompleteCatalog, []); }
    var s := AnalyzePairs(Compared(baseline, candidate));
    return Analysis(if s.truncated then Truncated else Complete, s.out);
  }

  /** The loop over the tools and their two schemas, up to the first limit. */
  method AnalyzePairs(pairs: seq<Pair>) returns (s: State)
    ensures s == Run(STEP, pairs, |pairs|)
  {
    s := START;
    for i := 0 to |pairs|
      invariant s == Run(STEP, pairs, i) && !s.truncated
    {
      s := AnalyzePair(s, pairs[i]);
      RunNext(STEP, pairs, i);
      if s.truncated {
        RunStops(STEP, pairs, i + 1, |pairs|);
        return;
      }
    }
  }

  lemma {:induction false} RunNext(step: (State, Pair) -> State, pairs: seq<Pair>, i: nat)
    requires i < |pairs| && !Run(step, pairs, i).truncated
    ensures Run(step, pairs, i + 1) == step(Run(step, pairs, i), pairs[i])
  {
  }

  method AnalyzePair(s: State, p: Pair) returns (t: State)
    ensures t == STEP(s, p)
  {
    t := s;
    if p.before != p.after {
      if p.before.Some? && p.after.Some? {
        t := AnalyzeSchemaNode(p.w, s.(nodes := 0), p.before.value, p.after.value, "", 0);
      } else {
        t := Push(p.w, s, NotSupported(p.w, ""));
      }
    }
  }

  lemma {:induction false} RunStops(step: (State, Pair) -> State, pairs: seq<Pair>, m: nat, n: nat)
    requires m <= n <= |pairs| && Run(step, pairs, m).truncated
    ensures Run(step, pairs, n) == Run(step, pairs, m)
  {
    if m < n { RunStops(step, pairs, m, n - 1); }
  }

  lemma {:induction false} PairExtends(s: State, p: Pair)
    requires Open(s)
    ensures Extends(s, PairStep(s, p), PairWalk(p))
  {
    if p.before == p.after {
      assert s.out + [] == s.out;
    } else if p.before.Some? && p.after.Some? {
      NodeExtends(p.w, s.(nodes := 0), p.before.value, p.after.value, "", 0);
    }
  }

  lemma {:induction false} RunExtends(step: (State, Pair) -> State, walk: Pair -> seq<Explanation>, pairs: seq<Pair>,
                                      n: nat)
    requires n <= |pairs| && forall s, p :: Open(s) ==> Extends(s, step(s, p), walk(p))
    ensures Extends(START, Run(step, pairs, n), Gathered(walk, pairs, n))
  {
    if n > 0 {
      var s, u, more := Run(step, pairs, n - 1), Gathered(walk, pairs, n - 1), walk(pairs[n - 1]);
      RunExtends(step, walk, pairs, n - 1);
      if s.truncated {
        ExtendsMore(START, s, u, more);
      } else {
        assert Open(s);
        ExtendsTwice(START, s, step(s, pairs[n - 1]), u, more);
      }
    } else {
      assert START.out + [] == START.out;
    }
  }

  /** Untruncated, the analysis is exactly the unbounded walk of every pair; truncated, it is a prefix of it and at most
   *  one limit marker; and it never exceeds its cap. */
  lemma {:induction false} AnalysisRefines(pairs: seq<Pair>)
    ensures Extends(START, Run(STEP, pairs, |pairs|), Gathered(WALK, pairs, |pairs|))
  {
    forall s, p | Open(s) ensures Extends(s, STEP(s, p), WALK(p)) { PairExtends(s, p); }
    RunExtends(STEP, WALK, pairs, |pairs|);
  }

  // ---------------------------------------------------------------- the cap without a marker

  predicate Unmarked(es: seq<Explanation>) { forall e :: e in es ==> !e.rule.AnalysisLimit? }

  lemma {:induction false} UnmarkedBoth(x: seq<Explanation>, y: seq<Explanation>)
    requires Unmarked(x) && Unmarked(y)
    ensures Unmarked(x + y)
  {
  }

  lemma {:induction false} TypeUnmarked(w: Where, before: Json, after: Json, pointer: string)
    ensures Unmarked(TypePart(w, before, after, pointer))
  {
  }

  lemma {:induction false} ChangesUnmarked(w: Where, names: seq<string>, rule: Rule, classification: Classification,
                                           pointer: string)
    requires !rule.AnalysisLimit?
    ensures Unmarked(RequiredChanges(w, names, rule, classification, pointer))
  {
  }

  lemma {:induction false} BothChangesUnmarked(w: Where, added: seq<string>, removed: seq<string>, pointer: string)
    ensures Unmarked(RequiredChanges(w, added, RequiredAdded, PotentiallyBreaking, pointer)
                     + RequiredChanges(w, removed, RequiredRemoved, PotentiallyNonBreaking, pointer))
  {
    ChangesUnmarked(w, added, RequiredAdded, PotentiallyBreaking, pointer);
    ChangesUnmarked(w, removed, RequiredRemoved, PotentiallyNonBreaking, pointer);
    UnmarkedBoth(RequiredChanges(w, added, RequiredAdded, PotentiallyBreaking, pointer),
                 RequiredChanges(w, removed, RequiredRemoved, PotentiallyNonBreaking, pointer));
  }

  lemma {:induction false} DiffUnmarked(w: Where, before: set<string>, after: set<string>, pointer: string)
    ensures Unmarked(RequiredDiff(w, before, after, pointer))
  {
    BothChangesUnmarked(w, SortedKeys(after - before), SortedKeys(before - after), pointer);
  }

  lemma {:induction false} RequiredUnmarked(w: Where, before: Json, after: Json, pointer: string)
    ensures Unmarked(RequiredPart(w, before, after, pointer))
  {
    var b, a := ParseRequired(before.Get("required")), ParseRequired(after.Get("required"));
    if b.Some? && a.Some? { DiffUnmarked(w, b.value, a.value, pointer); }
  }

  lemma {:induction false} AdditionalUnmarked(w: Where, before: Json, after: Json, pointer: string)
    ensures Unmarked(AdditionalPart(w, before, after, pointer))
  {
    AdditionalChangeFrom(w, ChildPointer(pointer, "additionalProperties"), before.Get("additionalProperties"),
                         after.Get("additionalProperties"));
  }

  lemma {:induction false} AdditionalChangeFrom(w: Where, at: string, before: Option<Json>, after: Option<Json>)
    ensures var es := AdditionalChange(w, at, before, after); Unmarked(es) && AllOf(w, es)
  {
  }

  lemma {:induction false} EnumUnmarked(w: Where, before: Json, after: Json, pointer: string)
    ensures Unmarked(EnumPart(w, before, after, pointer))
  {
  }

  lemma {:induction false} PropertiesUnmarked(w: Where, before: Json, after: Json, pointer: string)
    ensures Unmarked(PropertiesPart(w, before, after, pointer))
  {
  }

  lemma {:induction false} UnmarkedFive(a: seq<Explanation>, b: seq<Explanation>, c: seq<Explanation>,
                                        d: seq<Explanation>, e: seq<Explanation>)
    requires Unmarked(a) && Unmarked(b) && Unmarked(c) && Unmarked(d) && Unmarked(e)
    ensures Unmarked(a + b + c + d + e)
  {
    UnmarkedBoth(a, b);
    UnmarkedBoth(a + b, c);
    UnmarkedBoth(a + b + c, d);
    UnmarkedBoth(a + b + c + d, e);
  }

  lemma {:induction false} HeadUnmarked(w: Where, before: Json, after: Json, pointer: string)
    ensures Unmarked(Head(w, before, after, pointer))
  {
    TypeUnmarked(w, before, after, pointer);
    RequiredUnmarked(w, before, after, pointer);
    AdditionalUnmarked(w, before, after, pointer);
    EnumUnmarked(w, before, after, pointer);
    PropertiesUnmarked(w, before, after, pointer);
    UnmarkedFive(TypePart(w, before, after, pointer), RequiredPart(w, before, after, pointer),
                 AdditionalPart(w, before, after, pointer), EnumPart(w, before, after, pointer),
                 PropertiesPart(w, before, after, pointer));
  }

  lemma {:induction false} TailUnmarked(w: Where, before: Json, after: Json, keywords: seq<string>, pointer: string)
    ensures Unmarked(Tail(w, before, after, keywords, pointer))
    decreases |keywords|
  {
    if |keywords| > 0 { TailUnmarked(w, before, after, keywords[1..], pointer); }
  }

  /** Pushing the other changed keywords is pushing a list, up to the first that finds no room. */
  lemma {:induction false} TailPushed(w: Where, s: State, before: Json, after: Json, keywords: seq<string>,
                                      pointer: string)
    requires Open(s)
    ensures var t, tail := NodeTail(w, s, before, after, keywords, pointer), Tail(w, before, after, keywords, pointer);
      && t.out <= s.out + tail
      && (t.truncated <==> |s.out| + |tail| > MAX_SCHEMA_EXPLANATIONS)
    decreases |keywords|
  {
    if |keywords| > 0 {
      if !Changed(before, after, keywords[0]) {
        TailPushed(w, s, before, after, keywords[1..], pointer);
        assert Tail(w, before, after, keywords, pointer) == Tail(w, before, after, keywords[1..], pointer);
      } else {
        var e := NotSupported(w, ChildPointer(pointer, keywords[0]));
        var t, rest := Push(w, s, e), Tail(w, before, after, keywords[1..], pointer);
        assert s.out + [e] + rest == s.out + ([e] + rest);
        if !t.truncated { TailPushed(w, t, before, after, keywords[1..], pointer); }
      }
    }
  }

  lemma {:induction false} SameNamesWalk(w: Where, s: State, before: Json, after: Json, names: seq<string>,
                                         pointer: string, depth: nat)
    requires before.Obj? && after.Obj? && forall n :: n in names ==> n in Properties(before) || n in Properties(after)
    requires forall n :: n in names ==> Property(before, n) == Property(after, n)
    ensures NodeNames(w, s, before, after, names, pointer, depth) == (s, s.truncated && |names| > 0)
  {
    if |names| > 0 && !s.truncated { SameNamesWalk(w, s, before, after, names[1..], pointer, depth); }
  }

  /** Without a changed property a node is its head and its tail. */
  lemma {:induction false} NodeOfTwo(w: Where, before: Json, after: Json)
    requires before.Obj? && after.Obj? && forall n :: n in Names(before, after) ==>
      Property(before, n) == Property(after, n)
    ensures var headed := PushAll(w, Counted(START, 0), Head(w, before, after, ""));
      Node(w, START, before, after, "", 0) ==
        if headed.truncated then headed else NodeTail(w, headed, before, after, Keywords(before, after), "")
  {
    var headed := PushAll(w, Counted(START, 0), Head(w, before, after, ""));
    PushAllExtends(w, Counted(START, 0), Head(w, before, after, ""));
    SameNamesWalk(w, headed, before, after, Names(before, after), "", 0);
    if headed.truncated { FullStays(w, headed, before, after, Keywords(before, after), ""); }
  }

  lemma {:induction false} FlatNode(w: Where, before: Json, after: Json)
    requires before.Obj? && after.Obj? && forall n :: n in Names(before, after) ==>
      Property(before, n) == Property(after, n)
    ensures var t := Node(w, START, before, after, "", 0);
      var head, tail := Head(w, before, after, ""), Tail(w, before, after, Keywords(before, after), "");
      && t.out <= head + tail
      && (t.truncated <==> |head| + |tail| > MAX_SCHEMA_EXPLANATIONS)
  {
    var counted, head := Counted(START, 0), Head(w, before, after, "");
    var headed := PushAll(w, counted, head);
    NodeOfTwo(w, before, after);
    PushAllExtends(w, counted, head);
    assert [] + head == head;
    if !headed.truncated { TailPushed(w, headed, before, after, Keywords(before, after), ""); }
  }

  /** A pair that differs in no property is cut short exactly when its explanations exceed the cap, and then nothing
   *  says so: every explanation kept is genuine. */
  lemma {:induction false} CapLeavesNoMarkerIff(w: Where, before: Json, after: Json)
    requires before.Obj? && after.Obj? && before != after
    requires forall n :: n in Names(before, after) ==> Property(before, n) == Property(after, n)
    ensures var t := Run(STEP, [Pair(w, Some(before), Some(after))], 1);
      var head, tail := Head(w, before, after, ""), Tail(w, before, after, Keywords(before, after), "");
      && Unmarked(t.out) && (t.truncated <==> |head| + |tail| > MAX_SCHEMA_EXPLANATIONS)
  {
    OnePair(Pair(w, Some(before), Some(after)));
    FlatNode(w, before, after);
    FlatUnmarked(w, before, after);
    UnmarkedPrefix(Node(w, START, before, after, "", 0).out,
                   Head(w, before, after, "") + Tail(w, before, after, Keywords(before, after), ""));
  }

  lemma {:induction false} OnePair(p: Pair)
    requires p.before.Some? && p.after.Some? && p.before != p.after
    ensures Run(STEP, [p], 1) == Node(p.w, START, p.before.value, p.after.value, "", 0)
  {
    assert Run(STEP, [p], 0) == START;
  }

  lemma {:induction false} FlatUnmarked(w: Where, before: Json, after: Json)
    requires before.Obj? && after.Obj?
    ensures Unmarked(Head(w, before, after, "") + Tail(w, before, after, Keywords(before, after), ""))
  {
    HeadUnmarked(w, before, after, "");
    TailUnmarked(w, before, after, Keywords(before, after), "");
    UnmarkedBoth(Head(w, before, after, ""), Tail(w, before, after, Keywords(before, after), ""));
  }

  lemma {:induction false} UnmarkedPrefix(es: seq<Explanation>, all: seq<Explanation>)
    requires es <= all && Unmarked(all)
    ensures Unmarked(es)
  {
    forall e | e in es ensures !e.rule.AnalysisLimit? {
      var i :| 0 <= i < |es| && es[i] == e;
      assert all[i] == e;
    }
  }

  /** A schema that requires the properties named 0, 1, 2, ... */
  function Requiring(n: nat): Json { Obj(map["required" := Arr(seq(n, i requires 0 <= i < n => Str(Decimal(i))))]) }

  function Numerals(n: nat): seq<string> { seq(n, i requires 0 <= i < n => Decimal(i)) }

  lemma {:induction false} UniqueCount(names: seq<string>)
    requires Unique(names)
    ensures |set n | n in names| == |names|
  {
    if |names| > 0 {
      var init, last := names[..|names| - 1], names[|names| - 1];
      UniqueCount(init);
      assert (set n | n in names) == (set n | n in init) + {last};
    }
  }

  lemma {:induction false} RequiringParsed(n: nat)
    requires n <= MAX_SCHEMA_NODES
    ensures var r := ParseRequired(Requiring(n).Get("required")); r.Some? && |r.value| == n
  {
    var names := Numerals(n);
    forall i, j | 0 <= i < j < n ensures names[i] != names[j] { if names[i] == names[j] { DecimalInjective(i, j); } }
    var values := Requiring(n).fields["required"].items;
    assert Strings(values).Some? && Strings(values).value == names;
    UniqueCount(names);
  }

  lemma {:induction false} RequiringHead(w: Where, n: nat)
    requires n <= MAX_SCHEMA_NODES
    ensures |Head(w, UNCONSTRAINED, Requiring(n), "")| == n
  {
    RequiringParsed(n);
    RequiredAdds(w, ParseRequired(Requiring(n).Get("required")).value);
    RequiredGained(w, Requiring(n));
    OneKeyword("required", Requiring(n).fields["required"], "type");
    OneKeyword("required", Requiring(n).fields["required"], "enum");
    OneKeyword("required", Requiring(n).fields["required"], "properties");
    OneKeyword("required", Requiring(n).fields["required"], "additionalProperties");
    RequiredOnly(w, UNCONSTRAINED, Requiring(n));
  }

  lemma {:induction false} OneKeyword(key: string, value: Json, other: string)
    requires key != other
    ensures Obj(map[key := value]).Get(other).None?
  {
  }

  lemma {:induction false} RequiredGained(w: Where, after: Json)
    requires after.Get("required").Some? && ParseRequired(after.Get("required")).Some?
    ensures RequiredPart(w, UNCONSTRAINED, after, "") ==
      RequiredDiff(w, {}, ParseRequired(after.Get("required")).value, "")
  {
  }

  lemma {:induction false} RequiringRest(w: Where, n: nat)
    ensures Names(UNCONSTRAINED, Requiring(n)) == []
    ensures Tail(w, UNCONSTRAINED, Requiring(n), Keywords(UNCONSTRAINED, Requiring(n)), "") == []
  {
    var before, after := UNCONSTRAINED, Requiring(n);
    assert Properties(before).Keys + Properties(after).Keys == {};
    forall k | k in Keywords(before, after) ensures !Changed(before, after, k) {
      assert k in before.fields.Keys + after.fields.Keys;
    }
    NothingChanged(w, before, after, Keywords(before, after), "");
  }

  lemma {:induction false} RequiredOnly(w: Where, before: Json, after: Json)
    requires before.Get("type") == after.Get("type") && before.Get("enum") == after.Get("enum")
      && before.Get("additionalProperties") == after.Get("additionalProperties")
    requires PropertiesReadable(before) && PropertiesReadable(after)
    ensures |Head(w, before, after, "")| == |RequiredPart(w, before, after, "")|
  {
    assert |TypePart(w, before, after, "")| == 0 && |AdditionalPart(w, before, after, "")| == 0;
    assert |EnumPart(w, before, after, "")| == 0 && |PropertiesPart(w, before, after, "")| == 0;
    FiveLengths(TypePart(w, before, after, ""), RequiredPart(w, before, after, ""),
                AdditionalPart(w, before, after, ""),
                EnumPart(w, before, after, ""), PropertiesPart(w, before, after, ""));
  }

  lemma {:induction false} FiveLengths<T>(a: seq<T>, b: seq<T>, c: seq<T>, d: seq<T>, e: seq<T>)
    ensures |a + b + c + d + e| == |a| + |b| + |c| + |d| + |e|
  {
  }

  lemma {:induction false} RequiredAdds(w: Where, names: set<string>)
    ensures |RequiredDiff(w, {}, names, "")| == |names|
  {
    assert names - {} == names && {} - names == {};
  }

  lemma {:induction false} NothingChanged(w: Where, before: Json, after: Json, keywords: seq<string>, pointer: string)
    requires forall k :: k in keywords ==> !Changed(before, after, k)
    ensures Tail(w, before, after, keywords, pointer) == []
    decreases |keywords|
  {
    if |keywords| > 0 { NothingChanged(w, before, after, keywords[1..], pointer); }
  }

  /** Such a pair: a tool whose new version requires 101 properties more. The analysis is truncated and has no limit
   *  finding. */
  lemma {:induction false} ManyRequired(w: Where)
    ensures var t := Run(STEP, [Pair(w, Some(UNCONSTRAINED), Some(Requiring(101)))], 1); t.truncated && Unmarked(t.out)
  {
    RequiringHead(w, 101);
    RequiringRest(w, 101);
    assert "required" in Requiring(101).fields;
    CapLeavesNoMarkerIff(w, UNCONSTRAINED, Requiring(101));
  }

  // ---------------------------------------------------------------- every explanation names its tool

  predicate AllOf(w: Where, es: seq<Explanation>) { forall e :: e in es ==> e.tool == w.tool && e.kind == w.kind }

  lemma {:induction false} AllOfBoth(w: Where, x: seq<Explanation>, y: seq<Explanation>)
    requires AllOf(w, x) && AllOf(w, y)
    ensures AllOf(w, x + y)
  {
  }

  lemma {:induction false} TypeOwn(w: Where, before: Json, after: Json, pointer: string)
    ensures AllOf(w, TypePart(w, before, after, pointer))
  {
  }

  lemma {:induction false} ChangesOwn(w: Where, names: seq<string>, rule: Rule, classification: Classification,
                                      pointer: string)
    ensures AllOf(w, RequiredChanges(w, names, rule, classification, pointer))
  {
  }

  lemma {:induction false} RequiredOwn(w: Where, before: Json, after: Json, pointer: string)
    ensures AllOf(w, RequiredPart(w, before, after, pointer))
  {
    var b, a := ParseRequired(before.Get("required")), ParseRequired(after.Get("required"));
    if b.Some? && a.Some? { RequiredDiffOwn(w, b.value, a.value, pointer); }
  }

  lemma {:induction false} RequiredDiffOwn(w: Where, before: set<string>, after: set<string>, pointer: string)
    ensures AllOf(w, RequiredDiff(w, before, after, pointer))
  {
    ChangesOwn(w, SortedKeys(after - before), RequiredAdded, PotentiallyBreaking, pointer);
    ChangesOwn(w, SortedKeys(before - after), RequiredRemoved, PotentiallyNonBreaking, pointer);
  }

  lemma {:induction false} AdditionalOwn(w: Where, before: Json, after: Json, pointer: string)
    ensures AllOf(w, AdditionalPart(w, before, after, pointer))
  {
    AdditionalChangeFrom(w, ChildPointer(pointer, "additionalProperties"), before.Get("additionalProperties"),
                         after.Get("additionalProperties"));
  }

  lemma {:induction false} EnumOwn(w: Where, before: Json, after: Json, pointer: string)
    ensures AllOf(w, EnumPart(w, before, after, pointer))
  {
  }

  lemma {:induction false} PropertiesOwn(w: Where, before: Json, after: Json, pointer: string)
    ensures AllOf(w, PropertiesPart(w, before, after, pointer))
  {
  }

  lemma {:induction false} AllOfFive(w: Where, a: seq<Explanation>, b: seq<Explanation>, c: seq<Explanation>,
                                     d: seq<Explanation>, e: seq<Explanation>)
    requires AllOf(w, a) && AllOf(w, b) && AllOf(w, c) && AllOf(w, d) && AllOf(w, e)
    ensures AllOf(w, a + b + c + d + e)
  {
    AllOfBoth(w, a, b);
    AllOfBoth(w, a + b, c);
    AllOfBoth(w, a + b + c, d);
    AllOfBoth(w, a + b + c + d, e);
  }

  lemma {:induction false} HeadOwn(w: Where, before: Json, after: Json, pointer: string)
    ensures AllOf(w, Head(w, before, after, pointer))
  {
    TypeOwn(w, before, after, pointer);
    RequiredOwn(w, before, after, pointer);
    AdditionalOwn(w, before, after, pointer);
    EnumOwn(w, before, after, pointer);
    PropertiesOwn(w, before, after, pointer);
    AllOfFive(w, TypePart(w, before, after, pointer), RequiredPart(w, before, after, pointer),
              AdditionalPart(w, before, after, pointer), EnumPart(w, before, after, pointer),
              PropertiesPart(w, before, after, pointer));
  }

  lemma {:induction false} TailOwn(w: Where, before: Json, after: Json, keywords: seq<string>, pointer: string)
    ensures AllOf(w, Tail(w, before, after, keywords, pointer))
    decreases |keywords|
  {
    if |keywords| > 0 { TailOwn(w, before, after, keywords[1..], pointer); }
  }

  lemma {:induction false} WalkOwn(w: Where, before: Json, after: Json, pointer: string)
    ensures AllOf(w, Walk(w, before, after, pointer))
    decreases Rank(before), before, after, 1, 0
  {
    if before.Obj? && after.Obj? {
      var head, names := Head(w, before, after, pointer), WalkNames(w, before, after, Names(before, after), pointer);
      HeadOwn(w, before, after, pointer);
      NamesOwn(w, before, after, Names(before, after), pointer);
      TailOwn(w, before, after, Keywords(before, after), pointer);
      AllOfBoth(w, head, names);
      AllOfBoth(w, head + names, Tail(w, before, after, Keywords(before, after), pointer));
    }
  }

  lemma {:induction false} NamesOwn(w: Where, before: Json, after: Json, names: seq<string>, pointer: string)
    requires before.Obj? && after.Obj? && forall n :: n in names ==> n in Properties(before) || n in Properties(after)
    ensures AllOf(w, WalkNames(w, before, after, names, pointer))
    decreases Rank(before), before, after, 0, |names|
  {
    if |names| > 0 {
      NameOwn(w, before, after, names[0], pointer);
      NamesOwn(w, before, after, names[1..], pointer);
      AllOfBoth(w, WalkName(w, before, after, names[0], pointer), WalkNames(w, before, after, names[1..], pointer));
    }
  }

  lemma {:induction false} NameOwn(w: Where, before: Json, after: Json, name: string, pointer: string)
    requires before.Obj? && after.Obj? && (name in Properties(before) || name in Properties(after))
    ensures AllOf(w, WalkName(w, before, after, name, pointer))
    decreases Rank(before), before, after, 0, 0
  {
    if Property(before, name) != Property(after, name) {
      PropertyBelow(before, name);
      PropertyBelow(after, name);
      WalkOwn(w, Property(before, name), Property(after, name), PropertyPointer(pointer, name));
    }
  }

  lemma {:induction false} PairOwn(p: Pair)
    ensures AllOf(p.w, PairWalk(p))
  {
    if p.before.Some? && p.after.Some? { WalkOwn(p.w, p.before.value, p.after.value, ""); }
  }

  lemma {:induction false} GatheredHas(walk: Pair -> seq<Explanation>, pairs: seq<Pair>, n: nat, i: nat, e: Explanation)
    requires i < n <= |pairs| && e in walk(pairs[i])
    ensures e in Gathered(walk, pairs, n)
  {
    if i < n - 1 { GatheredHas(walk, pairs, n - 1, i, e); }
  }

  /** A complete analysis without an explanation for a tool's schema: the unbounded walk found nothing to say about
   *  it. */
  lemma {:induction false} SilentPair(pairs: seq<Pair>, i: nat)
    requires i < |pairs| && !Run(STEP, pairs, |pairs|).truncated
    requires forall e :: e in Run(STEP, pairs, |pairs|).out ==>
      !(e.tool == pairs[i].w.tool && e.kind == pairs[i].w.kind)
    ensures PairWalk(pairs[i]) == []
  {
    AnalysisRefines(pairs);
    assert START.out + Gathered(WALK, pairs, |pairs|) == Gathered(WALK, pairs, |pairs|);
    var walk := PairWalk(pairs[i]);
    PairOwn(pairs[i]);
    if walk != [] { GatheredHas(WALK, pairs, |pairs|, i, walk[0]); }
  }
}
