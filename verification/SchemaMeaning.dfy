/** What the analyzer's silence about two schemas says of the values they accept. */
module SchemaMeaning {
  import opened Json
  import opened Schema

  /** What JSON Schema leaves to a validator here: the keywords the analyzer does not read, as they stand in their
   *  schema object; equality of enum members; which numbers are integers; which names a pattern matches; and a
   *  keyword in a shape the analyzer does not read. The results hold for every lawful choice of these. */
  datatype Meaning = Meaning(others: (Json, Json) -> bool, same: (Json, Json) -> bool, integral: Number -> bool,
                             matches: (string, string) -> bool, odd: (string, Json, Json) -> bool)

  /** The keywords that ask which properties their siblings evaluate: section 11.3 of JSON Schema Core 2020-12. */
  const SIBLING_READERS: set<string> := {"unevaluatedProperties"}

  function Unread(schema: Json): map<string, Json>
    requires schema.Obj?
  {
    schema.fields - KNOWN_KEYWORDS
  }

  /** The siblings such a keyword asks are the same in both objects, or there is none that asks. */
  predicate SiblingsAlike(a: Json, b: Json)
    requires a.Obj? && b.Obj?
  {
    || (a.fields.Keys + b.fields.Keys) !! SIBLING_READERS
    || (Properties(a).Keys == Properties(b).Keys && a.Get("additionalProperties") == b.Get("additionalProperties"))
  }

  /** No keyword, no constraint; and of the keywords the analyzer reads, the others depend on no more than the names
   *  declared and the rule for the names not declared, and only where one of them asks. */
  ghost predicate Lawful(m: Meaning) {
    && (forall v :: m.others(UNCONSTRAINED, v))
    && (forall a: Json, b: Json, v :: a.Obj? && b.Obj? && Unread(a) == Unread(b) && SiblingsAlike(a, b) ==>
        m.others(a, v) == m.others(b, v))
  }

  /** Section 6.1.1 of JSON Schema Validation 2020-12. */
  predicate HasType(m: Meaning, name: string, v: Json) {
    match name
    case "null" => v.Null?
    case "boolean" => v.Bool?
    case "object" => v.Obj?
    case "array" => v.Arr?
    case "number" => v.Num?
    case "integer" => v.Num? && m.integral(v.n)
    case "string" => v.Str?
    case _ => false
  }

  predicate TypeOk(m: Meaning, value: Option<Json>, v: Json) {
    match ParseTypes(value)
    case None => value.Some? && m.odd("type", value.value, v)
    case Some(None) => true
    case Some(Some(names)) => exists name :: name in names && HasType(m, name, v)
  }

  /** Section 6.5.3. */
  predicate RequiredOk(m: Meaning, value: Option<Json>, v: Json) {
    match ParseRequired(value)
    case None => value.Some? && m.odd("required", value.value, v)
    case Some(names) => v.Obj? ==> names <= v.fields.Keys
  }

  predicate IsMember(m: Meaning, members: seq<Json>, v: Json) {
    exists i :: 0 <= i < |members| && m.same(members[i], v)
  }

  /** Section 6.1.2. */
  predicate EnumOk(m: Meaning, value: Option<Json>, v: Json) {
    match ParseEnum(value)
    case None => value.Some? && m.odd("enum", value.value, v)
    case Some(None) => true
    case Some(Some(_)) => value.Some? && value.value.Arr? && IsMember(m, value.value.items, v)
  }

  /** Whether a schema accepts a value; `properties` as in section 10.3.2.1 of JSON Schema Core 2020-12. */
  predicate Accepts(m: Meaning, schema: Json, v: Json)
    decreases schema
  {
    match schema
    case Bool(b) => b
    case Obj(fields) =>
      && TypeOk(m, schema.Get("type"), v) && RequiredOk(m, schema.Get("required"), v)
      && EnumOk(m, schema.Get("enum"), v)
      && PropertiesOk(m, schema, v) && AdditionalOk(m, schema, v)
      && m.others(schema, v)
    case _ => m.odd("", schema, v)
  }

  predicate PropertiesOk(m: Meaning, schema: Json, v: Json)
    requires schema.Obj?
    decreases schema, 0
  {
    if !PropertiesReadable(schema) then m.odd("properties", schema.fields["properties"], v) else
    v.Obj? ==> forall k :: k in v.fields && k in Properties(schema) ==> Accepts(m, Properties(schema)[k], v.fields[k])
  }

  /** A name that `properties` declares or a pattern of `patternProperties` matches. */
  predicate Named(m: Meaning, schema: Json, name: string) {
    || name in Properties(schema)
    || match schema.Get("patternProperties")
       case Some(Obj(patterns)) => exists p :: p in patterns && m.matches(p, name)
       case _ => false
  }

  /** Every other property: section 10.3.2.3. */
  predicate AdditionalOk(m: Meaning, schema: Json, v: Json)
    requires schema.Obj?
    decreases schema, 0
  {
    match schema.Get("additionalProperties")
    case None => true
    case Some(Bool(b)) => b || (v.Obj? ==> forall k :: k in v.fields ==> Named(m, schema, k))
    case Some(Obj(_)) =>
      v.Obj? ==> forall k :: k in v.fields && !Named(m, schema, k) ==>
          Accepts(m, schema.fields["additionalProperties"], v.fields[k])
    case Some(odd) => m.odd("additionalProperties", odd, v)
  }

  // ---------------------------------------------------------------- keyword by keyword

  lemma {:induction false} TypeSame(m: Meaning, w: Where, before: Json, after: Json, pointer: string, v: Json)
    requires TypePart(w, before, after, pointer) == []
    ensures TypeOk(m, before.Get("type"), v) <==> TypeOk(m, after.Get("type"), v)
  {
  }

  lemma {:induction false} RequiredSame(m: Meaning, w: Where, before: Json, after: Json, pointer: string, v: Json)
    requires RequiredPart(w, before, after, pointer) == []
    ensures RequiredOk(m, before.Get("required"), v) <==> RequiredOk(m, after.Get("required"), v)
  {
    var b, a := ParseRequired(before.Get("required")), ParseRequired(after.Get("required"));
    if before.Get("required") != after.Get("required") && b.Some? && a.Some? {
      NoRequiredDiff(w, b.value, a.value, pointer);
    }
  }

  lemma {:induction false} NoRequiredDiff(w: Where, before: set<string>, after: set<string>, pointer: string)
    requires RequiredDiff(w, before, after, pointer) == []
    ensures before == after
  {
    assert |SortedKeys(after - before)| == 0 && |SortedKeys(before - after)| == 0;
    assert forall n :: n in SortedKeys(after - before) <==> n in after - before;
    assert forall n :: n in SortedKeys(before - after) <==> n in before - after;
  }

  /** Members with the same texts are the same members, so they allow the same values under any equality. */
  lemma {:induction false} MembersSame(m: Meaning, b: seq<Json>, a: seq<Json>, v: Json)
    requires forall i :: 0 <= i < |b| ==> exists j :: 0 <= j < |a| && Text(a[j]) == Text(b[i])
    requires IsMember(m, b, v)
    ensures IsMember(m, a, v)
  {
    var i :| 0 <= i < |b| && m.same(b[i], v);
    var j :| 0 <= j < |a| && Text(a[j]) == Text(b[i]);
    TextInjective(a[j], b[i]);
  }

  lemma {:induction false} EnumTexts(value: Option<Json>, i: nat)
    requires ParseEnum(value).Some? && ParseEnum(value).value.Some?
    ensures value.Some? && value.value.Arr?
    ensures i < |value.value.items| ==> Text(value.value.items[i]) in ParseEnum(value).value.value
    ensures forall t :: t in ParseEnum(value).value.value ==>
        exists j :: 0 <= j < |value.value.items| && Text(value.value.items[j]) == t
  {
    var values := value.value.items;
    var texts := seq(|values|, k requires 0 <= k < |values| => Text(values[k]));
    assert ParseEnum(value).value.value == set t | t in texts;
    if i < |values| { assert texts[i] in texts; }
  }

  lemma {:induction false} EnumSameOneWay(m: Meaning, b: Option<Json>, a: Option<Json>, v: Json)
    requires ParseEnum(b) == ParseEnum(a) && ParseEnum(b).Some? && ParseEnum(b).value.Some? && EnumOk(m, b, v)
    ensures EnumOk(m, a, v)
  {
    EnumTexts(a, 0);
    forall i | 0 <= i < |b.value.items|
      ensures exists j :: 0 <= j < |a.value.items| && Text(a.value.items[j]) == Text(b.value.items[i])
    {
      EnumTexts(b, i);
    }
    MembersSame(m, b.value.items, a.value.items, v);
  }

  lemma {:induction false} EnumSame(m: Meaning, w: Where, before: Json, after: Json, pointer: string, v: Json)
    requires EnumPart(w, before, after, pointer) == []
    ensures EnumOk(m, before.Get("enum"), v) <==> EnumOk(m, after.Get("enum"), v)
  {
    var b, a := before.Get("enum"), after.Get("enum");
    if b != a && ParseEnum(b).Some? && ParseEnum(b).value.Some? {
      if EnumOk(m, b, v) { EnumSameOneWay(m, b, a, v); }
      if EnumOk(m, a, v) { EnumSameOneWay(m, a, b, v); }
    }
  }

  lemma {:induction false} NoTail(w: Where, before: Json, after: Json, keywords: seq<string>, pointer: string)
    requires Tail(w, before, after, keywords, pointer) == []
    ensures forall k :: k in keywords ==> !Changed(before, after, k)
    decreases |keywords|
  {
    if |keywords| > 0 {
      NoTail(w, before, after, keywords[1..], pointer);
      assert keywords == [keywords[0]] + keywords[1..];
    }
  }

  lemma {:induction false} OthersSame(w: Where, before: Json, after: Json, pointer: string)
    requires before.Obj? && after.Obj? && Tail(w, before, after, Keywords(before, after), pointer) == []
    ensures Unread(before) == Unread(after)
  {
    NoTail(w, before, after, Keywords(before, after), pointer);
    forall k | k !in KNOWN_KEYWORDS ensures before.Get(k) == after.Get(k) {
      if k in before.fields || k in after.fields { assert k in Keywords(before, after); }
    }
    assert Unread(before).Keys == Unread(after).Keys by {
      assert forall k :: k in before.fields && k !in KNOWN_KEYWORDS <==> before.Get(k).Some? && k !in KNOWN_KEYWORDS;
    }
  }

  // ---------------------------------------------------------------- silence

  lemma {:induction false} UnconstrainedAccepts(m: Meaning, v: Json)
    requires Lawful(m)
    ensures Accepts(m, UNCONSTRAINED, v)
  {
  }

  /** An undeclared property may as well be declared without constraint. */
  lemma {:induction false} PropertiesOkIff(m: Meaning, schema: Json, v: Json)
    requires Lawful(m) && schema.Obj? && PropertiesReadable(schema)
    ensures PropertiesOk(m, schema, v) <==>
      (v.Obj? ==> forall k :: k in v.fields ==> Accepts(m, Property(schema, k), v.fields[k]))
  {
    if v.Obj? {
      forall k | k in v.fields && k !in Properties(schema) ensures Accepts(m, Property(schema, k), v.fields[k]) {
        UnconstrainedAccepts(m, v.fields[k]);
      }
    }
  }

  /** Both objects are open and hold no keyword that asks for evaluated properties, or they name the same properties and
   *  have the same rule for all others. */
  predicate FairNode(before: Json, after: Json)
    requires before.Obj? && after.Obj?
  {
    || (OpenNode(before) && OpenNode(after))
    || (before.Get("additionalProperties") == after.Get("additionalProperties")
      && Properties(before).Keys == Properties(after).Keys)
  }

  predicate OpenNode(schema: Json)
    requires schema.Obj?
  {
    ParseAdditional(schema.Get("additionalProperties")) == Some(Allow) && schema.fields.Keys !! SIBLING_READERS
  }

  /** So is every pair of objects below that the analyzer compares. */
  predicate Fair(before: Json, after: Json)
    decreases Rank(before), before, after, 1
  {
    before == after || !before.Obj? || !after.Obj?
    || (FairNode(before, after) && forall k :: k in Properties(before).Keys + Properties(after).Keys ==>
        FairProperty(before, after, k))
  }

  predicate FairProperty(before: Json, after: Json, name: string)
    requires before.Obj? && after.Obj? && (name in Properties(before) || name in Properties(after))
    decreases Rank(before), before, after, 0
  {
    Property(before, name) == Property(after, name) || Fair(Property(before, name), Property(after, name))
  }

  lemma {:induction false} AdditionalSame(m: Meaning, before: Json, after: Json, v: Json)
    requires before.Obj? && after.Obj? && FairNode(before, after) && Unread(before) == Unread(after)
    ensures AdditionalOk(m, before, v) <==> AdditionalOk(m, after, v)
  {
    UnreadSame(before, after, "patternProperties");
    if Properties(before).Keys == Properties(after).Keys {
      forall k ensures Named(m, before, k) <==> Named(m, after, k) {
        assert k in Properties(before).Keys <==> k in Properties(after).Keys;
      }
    }
  }

  lemma {:induction false} UnreadSame(before: Json, after: Json, k: string)
    requires before.Obj? && after.Obj? && Unread(before) == Unread(after) && k !in KNOWN_KEYWORDS
    ensures before.Get(k) == after.Get(k)
  {
    assert k in before.fields <==> k in Unread(before);
    assert k in after.fields <==> k in Unread(after);
    if k in before.fields { assert Unread(before)[k] == Unread(after)[k]; }
  }

  lemma {:induction false} NoNames(w: Where, before: Json, after: Json, names: seq<string>, pointer: string,
                                   name: string)
    requires before.Obj? && after.Obj? && forall n :: n in names ==> n in Properties(before) || n in Properties(after)
    requires WalkNames(w, before, after, names, pointer) == [] && name in names
    ensures WalkName(w, before, after, name, pointer) == []
  {
    if name != names[0] {
      assert names == [names[0]] + names[1..];
      NoNames(w, before, after, names[1..], pointer, name);
    }
  }

  lemma {:induction false} SilentParts(w: Where, before: Json, after: Json, pointer: string)
    requires before.Obj? && after.Obj? && Walk(w, before, after, pointer) == []
    ensures TypePart(w, before, after, pointer) == [] && RequiredPart(w, before, after, pointer) == []
      && EnumPart(w, before, after, pointer) == []
    ensures PropertiesReadable(before) && PropertiesReadable(after)
    ensures WalkNames(w, before, after, Names(before, after), pointer) == []
    ensures Tail(w, before, after, Keywords(before, after), pointer) == []
  {
    assert |Head(w, before, after, pointer)| == 0;
    assert |PropertiesPart(w, before, after, pointer)| == 0;
  }

  /** Nothing is said of any property. */
  predicate SilentNames(w: Where, before: Json, after: Json, pointer: string)
    requires before.Obj? && after.Obj?
  {
    && PropertiesReadable(before) && PropertiesReadable(after)
    && WalkNames(w, before, after, Names(before, after), pointer) == []
  }

  lemma {:induction false} SilentName(w: Where, before: Json, after: Json, pointer: string, name: string)
    requires before.Obj? && after.Obj? && SilentNames(w, before, after, pointer)
    requires name in Properties(before) || name in Properties(after)
    ensures WalkName(w, before, after, name, pointer) == []
  {
    assert name in Names(before, after);
    NoNames(w, before, after, Names(before, after), pointer, name);
  }

  lemma {:induction false} PartsSame(m: Meaning, before: Json, after: Json, v: Json)
    requires Lawful(m) && before.Obj? && after.Obj? && Unread(before) == Unread(after) && FairNode(before, after)
    requires TypeOk(m, before.Get("type"), v) <==> TypeOk(m, after.Get("type"), v)
    requires RequiredOk(m, before.Get("required"), v) <==> RequiredOk(m, after.Get("required"), v)
    requires EnumOk(m, before.Get("enum"), v) <==> EnumOk(m, after.Get("enum"), v)
    requires PropertiesOk(m, before, v) <==> PropertiesOk(m, after, v)
    requires AdditionalOk(m, before, v) <==> AdditionalOk(m, after, v)
    ensures Accepts(m, before, v) <==> Accepts(m, after, v)
  {
    assert SiblingsAlike(before, after);
    assert m.others(before, v) == m.others(after, v);
  }

  /** Silence about fair schemas: they accept exactly the same values. */
  lemma {:induction false} SilentSame(m: Meaning, w: Where, before: Json, after: Json, pointer: string, v: Json)
    requires Lawful(m) && Walk(w, before, after, pointer) == [] && Fair(before, after)
    ensures Accepts(m, before, v) <==> Accepts(m, after, v)
    decreases Rank(before), before, after, 2
  {
    if before != after {
      SilentParts(w, before, after, pointer);
      SilentProperties(m, w, before, after, pointer, v);
      TypeSame(m, w, before, after, pointer, v);
      RequiredSame(m, w, before, after, pointer, v);
      EnumSame(m, w, before, after, pointer, v);
      OthersSame(w, before, after, pointer);
      AdditionalSame(m, before, after, v);
      PartsSame(m, before, after, v);
    }
  }

  predicate FairProperties(before: Json, after: Json)
    requires before.Obj? && after.Obj?
    decreases Rank(before), before, after, 1
  {
    forall k :: k in Properties(before).Keys + Properties(after).Keys ==> FairProperty(before, after, k)
  }

  lemma {:induction false} SilentProperties(m: Meaning, w: Where, before: Json, after: Json, pointer: string, v: Json)
    requires Lawful(m) && before.Obj? && after.Obj? && SilentNames(w, before, after, pointer)
    requires FairProperties(before, after)
    ensures PropertiesOk(m, before, v) <==> PropertiesOk(m, after, v)
    decreases Rank(before), before, after, 1
  {
    PropertiesOkIff(m, before, v);
    PropertiesOkIff(m, after, v);
    if v.Obj? {
      forall k | k in v.fields
        ensures Accepts(m, Property(before, k), v.fields[k]) <==> Accepts(m, Property(after, k), v.fields[k])
      {
        if k in Properties(before) || k in Properties(after) {
          SilentName(w, before, after, pointer, k);
          SilentProperty(m, w, before, after, pointer, k, v.fields[k]);
        }
      }
    }
  }

  lemma {:induction false} SilentProperty(m: Meaning, w: Where, before: Json, after: Json, pointer: string,
                                          name: string, v: Json)
    requires before.Obj? && after.Obj? && (name in Properties(before) || name in Properties(after))
    requires Lawful(m) && WalkName(w, before, after, name, pointer) == [] && FairProperty(before, after, name)
    ensures Accepts(m, Property(before, name), v) <==> Accepts(m, Property(after, name), v)
    decreases Rank(before), before, after, 0
  {
    if Property(before, name) != Property(after, name) {
      PropertyBelow(before, name);
      PropertyBelow(after, name);
      SilentSame(m, w, Property(before, name), Property(after, name), PropertyPointer(pointer, name), v);
    }
  }

  // ---------------------------------------------------------------- open schemas

  /** No object schema in it closes or constrains undeclared properties, by either keyword for that. */
  predicate OpenEverywhere(schema: Json)
    decreases schema
  {
    schema.Obj? ==>
      && OpenNode(schema)
      && forall k :: k in Properties(schema) ==> OpenEverywhere(Properties(schema)[k])
  }

  lemma {:induction false} OpenIsFair(before: Json, after: Json)
    requires OpenEverywhere(before) && OpenEverywhere(after)
    ensures Fair(before, after)
    decreases Rank(before), before, after, 1
  {
    if before != after && before.Obj? && after.Obj? {
      forall k | k in Properties(before).Keys + Properties(after).Keys ensures FairProperty(before, after, k) {
        OpenPropertyIsFair(before, after, k);
      }
    }
  }

  lemma {:induction false} OpenPropertyIsFair(before: Json, after: Json, name: string)
    requires OpenEverywhere(before) && OpenEverywhere(after) && before.Obj? && after.Obj?
    requires name in Properties(before) || name in Properties(after)
    ensures FairProperty(before, after, name)
    decreases Rank(before), before, after, 0
  {
    PropertyBelow(before, name);
    PropertyBelow(after, name);
    if Property(before, name) != Property(after, name) { OpenIsFair(Property(before, name), Property(after, name)); }
  }

  /** A complete analysis that says nothing of a tool's schema: both versions are absent, or both accept exactly the
   *  same values. */
  lemma {:induction false} CompleteSilenceSame(m: Meaning, pairs: seq<Pair>, i: nat, v: Json)
    requires Lawful(m) && i < |pairs| && !Run(STEP, pairs, |pairs|).truncated
    requires forall e :: e in Run(STEP, pairs, |pairs|).out ==>
      !(e.tool == pairs[i].w.tool && e.kind == pairs[i].w.kind)
    requires pairs[i].before.Some? && pairs[i].after.Some? ==>
      Fair(pairs[i].before.value, pairs[i].after.value)
      || (OpenEverywhere(pairs[i].before.value) && OpenEverywhere(pairs[i].after.value))
    ensures pairs[i].before.Some? <==> pairs[i].after.Some?
    ensures pairs[i].before.Some? ==> (Accepts(m, pairs[i].before.value, v) <==> Accepts(m, pairs[i].after.value, v))
  {
    var p := pairs[i];
    SilentPair(pairs, i);
    if p.before.Some? && p.after.Some? && p.before != p.after {
      if !Fair(p.before.value, p.after.value) { OpenIsFair(p.before.value, p.after.value); }
      SilentSame(m, p.w, p.before.value, p.after.value, "", v);
    }
  }

  // ---------------------------------------------------------------- where silence misleads

  /** A meaning in which no unread keyword constrains anything. */
  const LAX := Meaning((schema, v) => true, (x, y) => x == y, (n: Number) => n.Int?, (pattern, name) => false,
                       (keyword, value, v) => true)

  /** Nothing to say where the keywords are equal or count as equal and no property differs. */
  lemma {:induction false} NothingToSay(w: Where, before: Json, after: Json)
    requires before.Obj? && after.Obj? && Unread(before) == Unread(after)
    requires before.Get("type") == after.Get("type") && before.Get("required") == after.Get("required")
      && before.Get("enum") == after.Get("enum")
    requires ParseAdditional(before.Get("additionalProperties")).Some?
    requires ParseAdditional(before.Get("additionalProperties")) == ParseAdditional(after.Get("additionalProperties"))
    requires PropertiesReadable(before) && PropertiesReadable(after)
    requires forall k :: k in Properties(before).Keys + Properties(after).Keys ==>
      Property(before, k) == Property(after, k)
    ensures Walk(w, before, after, "") == []
  {
    NothingAbove(w, before, after);
    assert forall k :: k in Names(before, after) ==> k in Properties(before).Keys + Properties(after).Keys;
    NothingBelow(w, before, after, Names(before, after), "");
    forall k | k !in KNOWN_KEYWORDS ensures before.Get(k) == after.Get(k) { UnreadSame(before, after, k); }
    NothingChanged(w, before, after, Keywords(before, after), "");
  }

  lemma {:induction false} NothingAbove(w: Where, before: Json, after: Json)
    requires before.Get("type") == after.Get("type") && before.Get("required") == after.Get("required")
      && before.Get("enum") == after.Get("enum")
    requires ParseAdditional(before.Get("additionalProperties")).Some?
    requires ParseAdditional(before.Get("additionalProperties")) == ParseAdditional(after.Get("additionalProperties"))
    requires PropertiesReadable(before) && PropertiesReadable(after)
    ensures Head(w, before, after, "") == []
  {
  }

  lemma {:induction false} NothingBelow(w: Where, before: Json, after: Json, names: seq<string>, pointer: string)
    requires before.Obj? && after.Obj? && forall n :: n in names ==> n in Properties(before) || n in Properties(after)
    requires forall n :: n in names ==> Property(before, n) == Property(after, n)
    ensures WalkNames(w, before, after, names, pointer) == []
  {
    if |names| > 0 { NothingBelow(w, before, after, names[1..], pointer); }
  }

  /** An object schema closed around some unconstrained properties. */
  function Closed(names: set<string>): Json {
    Obj(map["properties" := Obj(map k | k in names :: UNCONSTRAINED), "additionalProperties" := Bool(false)])
  }

  lemma {:induction false} ClosedParts(names: set<string>)
    ensures var c := Closed(names);
      && c.Get("type").None? && c.Get("required").None? && c.Get("enum").None?
      && c.Get("additionalProperties") == Some(Bool(false))
      && PropertiesReadable(c) && Properties(c).Keys == names && c.fields.Keys <= KNOWN_KEYWORDS
      && forall k :: Property(c, k) == UNCONSTRAINED
  {
    assert Closed(names).fields["properties"] == Obj(map k | k in names :: UNCONSTRAINED);
  }

  lemma {:induction false} LaxLawful()
    ensures Lawful(LAX)
  {
  }

  lemma {:induction false} ClosedAccepts(names: set<string>, v: Json)
    ensures Accepts(LAX, Closed(names), v) <==> (v.Obj? ==> v.fields.Keys <= names)
  {
    ClosedParts(names);
    LaxLawful();
    PropertiesOkIff(LAX, Closed(names), v);
    if v.Obj? {
      forall k | k in v.fields ensures Accepts(LAX, UNCONSTRAINED, v.fields[k]) {
        UnconstrainedAccepts(LAX, v.fields[k]);
      }
    }
  }

  /** Declaring one more unconstrained property of a closed object allows it, yet the analyzer has nothing to say. */
  lemma {:induction false} SilentButClosed(w: Where, name: string)
    ensures var before, after, v := Closed({}), Closed({name}), Obj(map[name := Null]);
      Walk(w, before, after, "") == [] && !Accepts(LAX, before, v) && Accepts(LAX, after, v)
  {
    ClosedParts({});
    ClosedParts({name});
    NothingToSay(w, Closed({}), Closed({name}));
    ClosedAccepts({}, Obj(map[name := Null]));
    ClosedAccepts({name}, Obj(map[name := Null]));
    assert name in Obj(map[name := Null]).fields.Keys;
  }

  function Restricted(schema: Json): Json { Obj(map["additionalProperties" := schema]) }

  lemma {:induction false} RestrictedSilent(w: Where, before: Json, after: Json)
    requires before.Obj? && after.Obj?
    ensures Walk(w, Restricted(before), Restricted(after), "") == []
  {
    assert Restricted(before).fields["additionalProperties"] == before
      && Restricted(after).fields["additionalProperties"] == after;
    NothingToSay(w, Restricted(before), Restricted(after));
  }

  lemma {:induction false} RestrictedAccepts(schema: Json, v: Json)
    requires schema.Obj?
    ensures Accepts(LAX, Restricted(schema), v) <==>
      (v.Obj? ==> forall k :: k in v.fields ==> Accepts(LAX, schema, v.fields[k]))
  {
    var r := Restricted(schema);
    assert r.fields["additionalProperties"] == schema && Properties(r) == map[];
  }

  function Typed(name: string): Json { Obj(map["type" := Str(name)]) }

  lemma {:induction false} TypedAccepts(name: string, v: Json)
    requires name in KNOWN_TYPES
    ensures Accepts(LAX, Typed(name), v) <==> HasType(LAX, name, v)
  {
    assert Typed(name).Get("type") == Some(Str(name)) && ParseTypes(Some(Str(name))) == Some(Some({name}));
    assert name in {name};
  }

  /** Any two different schemas for undeclared properties count as the same constraint: the analyzer is silent, whatever
   *  they accept. */
  lemma {:induction false} SilentButConstrained(w: Where, before: Json, after: Json, name: string, x: Json)
    requires before.Obj? && after.Obj? && !Accepts(LAX, before, x) && Accepts(LAX, after, x)
    ensures var v := Obj(map[name := x]);
      Walk(w, Restricted(before), Restricted(after), "") == [] && !Accepts(LAX, Restricted(before), v)
        && Accepts(LAX, Restricted(after), v)
  {
    var v := Obj(map[name := x]);
    RestrictedSilent(w, before, after);
    RestrictedAccepts(before, v);
    RestrictedAccepts(after, v);
    assert name in v.fields && v.fields[name] == x;
  }

  /** Such a pair: undeclared properties must be strings, then must be null. */
  lemma {:induction false} StringsThenNulls(w: Where, name: string)
    ensures var before, after, v := Restricted(Typed("string")), Restricted(Typed("null")), Obj(map[name := Null]);
      Walk(w, before, after, "") == [] && !Accepts(LAX, before, v) && Accepts(LAX, after, v)
  {
    TypedAccepts("string", Null);
    TypedAccepts("null", Null);
    SilentButConstrained(w, Typed("string"), Typed("null"), name, Null);
  }

  /** `unevaluatedProperties: false`, where only `properties` and `additionalProperties` evaluate. */
  predicate UnevaluatedOk(schema: Json, v: Json) {
    schema.Get("unevaluatedProperties") == Some(Bool(false)) && schema.Get("additionalProperties").None? && v.Obj? ==>
      v.fields.Keys <= Properties(schema).Keys
  }

  /** A meaning that reads that keyword and no other. */
  const STRICT := LAX.(others := (schema, v) => UnevaluatedOk(schema, v))

  lemma {:induction false} StrictLawful()
    ensures Lawful(STRICT)
  {
    forall a: Json, b: Json, v | a.Obj? && b.Obj? && Unread(a) == Unread(b) && SiblingsAlike(a, b)
      ensures STRICT.others(a, v) == STRICT.others(b, v)
    {
      UnreadSame(a, b, "unevaluatedProperties");
      assert "unevaluatedProperties" in SIBLING_READERS;
    }
  }

  function Unevaluated(names: set<string>): Json {
    Obj(map["properties" := Obj(map k | k in names :: UNCONSTRAINED), "unevaluatedProperties" := Bool(false)])
  }

  lemma {:induction false} UnevaluatedParts(names: set<string>)
    ensures var c := Unevaluated(names);
      && c.Get("type").None? && c.Get("required").None? && c.Get("enum").None? && c.Get("additionalProperties").None?
      && PropertiesReadable(c) && Properties(c).Keys == names
      && Unread(c) == map["unevaluatedProperties" := Bool(false)]
      && forall k :: Property(c, k) == UNCONSTRAINED
  {
    var c := Unevaluated(names);
    assert c.fields["properties"] == Obj(map k | k in names :: UNCONSTRAINED);
    assert Unread(c).Keys == {"unevaluatedProperties"};
  }

  lemma {:induction false} UnevaluatedAccepts(names: set<string>, v: Json)
    ensures Accepts(STRICT, Unevaluated(names), v) <==> (v.Obj? ==> v.fields.Keys <= names)
  {
    UnevaluatedParts(names);
    StrictLawful();
    PropertiesOkIff(STRICT, Unevaluated(names), v);
    assert Unevaluated(names).Get("unevaluatedProperties") == Some(Bool(false));
    if v.Obj? {
      forall k | k in v.fields ensures Accepts(STRICT, UNCONSTRAINED, v.fields[k]) {
        UnconstrainedAccepts(STRICT, v.fields[k]);
      }
    }
  }

  /** An object that leaves no property unevaluated accepts more as soon as it declares one more, in silence, though
   *  neither version has a word on additional properties. */
  lemma {:induction false} SilentButUnevaluated(w: Where, name: string)
    ensures var before, after, v := Unevaluated({}), Unevaluated({name}), Obj(map[name := Null]);
      Lawful(STRICT) && Walk(w, before, after, "") == [] && !Accepts(STRICT, before, v) && Accepts(STRICT, after, v)
  {
    StrictLawful();
    UnevaluatedParts({});
    UnevaluatedParts({name});
    NothingToSay(w, Unevaluated({}), Unevaluated({name}));
    UnevaluatedAccepts({}, Obj(map[name := Null]));
    UnevaluatedAccepts({name}, Obj(map[name := Null]));
    assert name in Obj(map[name := Null]).fields.Keys;
  }
}
