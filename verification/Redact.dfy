/** The redactor's rewriting of a payload and the checker's search for what it should have rewritten. */
module Redact {
  import opened Json
  import opened Policy

  /** `RedactionContext`: only a response matched to an observed `tools/list` request may keep schema names. */
  datatype Context = Runtime | ToolListResponse

  /** `redact` puts the placeholder; `redact_preserving_types` a dummy of the same JSON type. */
  datatype Style = Placeholder | Typed

  const MASK := Str(PLACEHOLDER)

  function Mask(style: Style, v: Json): Json {
    if style == Placeholder then MASK else
    match v
    case Str(_) => MASK
    case Num(_) => Num(Int(0))
    case Bool(_) => Bool(false)
    case Arr(_) => Arr([])
    case Obj(_) => Obj(map[])
    case Null => Null
  }

  // ---------------------------------------------------------------- specification

  /** What the traversal takes a value to be. Every walk of the source is one role; the role of a
      value fixes the roles of its children. */
  datatype Role =
    | Masked
    | Exempt
    | Plain
    | Message(context: Context)
    | ListResult
    | ToolList
    | ToolDefinition
    | Schema
    | NamedSchemas
    | SchemaList
    | Dependencies(nested: bool)

  predicate IsContainer(v: Json) { v.Obj? || v.Bool? }

  predicate AllStrings(v: Json) { v.Arr? && forall i :: 0 <= i < |v.items| ==> v.items[i].Str? }

  predicate IsSchemaMapKey(key: string) {
    key in ["properties", "patternProperties", "$defs", "definitions", "dependentSchemas"]
  }

  predicate IsSubschemaKey(key: string) {
    key in ["items", "additionalItems", "additionalProperties", "unevaluatedProperties", "unevaluatedItems",
            "propertyNames", "not", "if", "then", "else", "contains", "contentSchema"]
  }

  predicate IsSchemaListKey(key: string) { key in ["allOf", "anyOf", "oneOf", "prefixItems", "items"] }

  predicate IsToolSchemaKey(key: string) { key == "inputSchema" || key == "outputSchema" }

  function Visited(masks: string -> bool, key: string): Role { if masks(key) then Masked else Plain }

  function FieldRole(masks: string -> bool, role: Role, key: string, child: Json): Role {
    match role
    case NamedSchemas => if IsContainer(child) then Schema else Visited(masks, key)
    case Dependencies(nested) =>
      if AllStrings(child) then Exempt
      else if nested && IsContainer(child) then Schema
      else Visited(masks, key)
    case _ =>
      if masks(key) then Masked else
      match role
      case Message(context) => if key == "result" && context == ToolListResponse then ListResult else Plain
      case ListResult => if key == "tools" && child.Arr? then ToolList else Plain
      case ToolDefinition => if IsToolSchemaKey(key) then Schema else Plain
      case Schema => SchemaRole(key, child)
      case _ => Plain
  }

  /** The role of a keyword's value inside a schema object, for a keyword that is not sensitive. */
  function SchemaRole(key: string, child: Json): Role {
    if IsSchemaMapKey(key) && child.Obj? then NamedSchemas
    else if IsSubschemaKey(key) && IsContainer(child) then Schema
    else if IsSchemaListKey(key) && child.Arr? then SchemaList
    else if (key == "dependencies" || key == "dependentRequired") && child.Obj? then Dependencies(key == "dependencies")
    else Plain
  }

  function ItemRole(role: Role, item: Json): Role {
    match role
    case ToolList => ToolDefinition
    case SchemaList => if IsContainer(item) then Schema else Plain
    case _ => Plain
  }

  /** What redaction makes of a value standing in a role. */
  function Rewrite(masks: string -> bool, style: Style, role: Role, v: Json): Json
    decreases v
  {
    if role == Masked then Mask(style, v)
    else if role == Exempt then v
    else match v
      case Obj(m) => Obj(map k | k in m :: Rewrite(masks, style, FieldRole(masks, role, k, m[k]), m[k]))
      case Arr(items) =>
        Arr(seq(|items|, i requires 0 <= i < |items| => Rewrite(masks, style, ItemRole(role, items[i]), items[i])))
      case _ => v
  }

  /** The keys the checker reports for a value standing in a role under `key`. */
  function Findings(masks: string -> bool, role: Role, key: string, v: Json): set<string>
    decreases v
  {
    if role == Masked then (if v == MASK then {} else {key})
    else if role == Exempt then {}
    else match v
      case Obj(m) => set k, f | k in m && f in Findings(masks, FieldRole(masks, role, k, m[k]), k, m[k]) :: f
      case Arr(items) => set i, f | 0 <= i < |items|
        && f in Findings(masks, ItemRole(role, items[i]), key, items[i]) :: f
      case _ => {}
  }

  /** `redact_with_context` and `redact_preserving_types_with_context`. */
  function Redacted(policy: Policy, style: Style, context: Context, v: Json): Json {
    if !policy.Active() then v else Rewrite(Masks(policy.RedactorKeys()), style, Message(context), v)
  }

  /** `unredacted_sensitive_keys_with_context`, as a set. */
  function Unredacted(policy: Policy, context: Context, v: Json): set<string> {
    if !policy.Active() then {} else Findings(Masks(policy.CustomKeys()), Message(context), "", v)
  }

  // ---------------------------------------------------------------- checker and redactor are one relation

  /** Nothing is reported exactly when rewriting changes nothing. */
  lemma {:induction false} CleanIffFixpoint(masks: string -> bool, role: Role, key: string, v: Json)
    ensures Findings(masks, role, key, v) == {} <==> Rewrite(masks, Placeholder, role, v) == v
    decreases v
  {
    if role == Masked || role == Exempt { return; }
    match v
    case Obj(m) =>
      var out := Rewrite(masks, Placeholder, role, v).fields;
      forall k | k in m
        ensures Findings(masks, FieldRole(masks, role, k, m[k]), k, m[k]) == {} <==> out[k] == m[k]
      {
        CleanIffFixpoint(masks, FieldRole(masks, role, k, m[k]), k, m[k]);
      }
      NoFieldFindings(masks, role, key, v);
      assert out == m <==> forall k :: k in m ==> out[k] == m[k];
    case Arr(items) =>
      var out := Rewrite(masks, Placeholder, role, v).items;
      forall i | 0 <= i < |items|
        ensures Findings(masks, ItemRole(role, items[i]), key, items[i]) == {} <==> out[i] == items[i]
      {
        CleanIffFixpoint(masks, ItemRole(role, items[i]), key, items[i]);
      }
      NoItemFindings(masks, role, key, v);
      assert out == items <==> forall i :: 0 <= i < |items| ==> out[i] == items[i];
    case _ =>
  }

  /** Rewriting never turns a value into one that stands in another role. */
  lemma {:induction false} RoleStable(masks: string -> bool, role: Role, key: string, child: Json)
    ensures var r := FieldRole(masks, role, key, child);
      FieldRole(masks, role, key, Rewrite(masks, Placeholder, r, child)) == r
    ensures var r := ItemRole(role, child);
      ItemRole(role, Rewrite(masks, Placeholder, r, child)) == r
  {
    var r := FieldRole(masks, role, key, child);
    var out := Rewrite(masks, Placeholder, r, child);
    if role.Dependencies? && r == Plain && child.Arr? {
      var i :| 0 <= i < |child.items| && !child.items[i].Str?;
      assert out.items[i] == Rewrite(masks, Placeholder, Plain, child.items[i]);
    }
  }

  /** What the redactor leaves, the checker passes. */
  lemma {:induction false} RewriteClean(masks: string -> bool, role: Role, key: string, v: Json)
    ensures Findings(masks, role, key, Rewrite(masks, Placeholder, role, v)) == {}
    decreases v
  {
    if role == Masked || role == Exempt { return; }
    var w := Rewrite(masks, Placeholder, role, v);
    match v
    case Obj(m) =>
      forall k | k in m ensures Findings(masks, FieldRole(masks, role, k, w.fields[k]), k, w.fields[k]) == {} {
        RoleStable(masks, role, k, m[k]);
        RewriteClean(masks, FieldRole(masks, role, k, m[k]), k, m[k]);
      }
    case Arr(items) =>
      forall i | 0 <= i < |items| ensures Findings(masks, ItemRole(role, w.items[i]), key, w.items[i]) == {} {
        RoleStable(masks, role, key, items[i]);
        RewriteClean(masks, ItemRole(role, items[i]), key, items[i]);
      }
    case _ =>
  }

  lemma {:induction false} SameRole(a: string -> bool, b: string -> bool, role: Role, key: string, child: Json)
    requires a(key) == b(key)
    ensures FieldRole(a, role, key, child) == FieldRole(b, role, key, child)
  {
  }

  lemma {:induction false} SameKeysSameRewrite(a: string -> bool, b: string -> bool, style: Style, role: Role, v: Json)
    requires forall key :: a(key) == b(key)
    ensures Rewrite(a, style, role, v) == Rewrite(b, style, role, v)
    decreases v
  {
    if role == Masked || role == Exempt { return; }
    var p, q := Rewrite(a, style, role, v), Rewrite(b, style, role, v);
    match v
    case Obj(m) =>
      forall k | k in m ensures p.fields[k] == q.fields[k] {
        SameRole(a, b, role, k, m[k]);
        SameKeysSameRewrite(a, b, style, FieldRole(a, role, k, m[k]), m[k]);
      }
      assert p.fields == q.fields;
    case Arr(items) =>
      forall i | 0 <= i < |items| ensures p.items[i] == q.items[i] {
        SameKeysSameRewrite(a, b, style, ItemRole(role, items[i]), items[i]);
      }
      assert p.items == q.items;
    case _ =>
  }

  /** No extra key has a normal form that the checker's own list does not cover. */
  predicate KeysCovered(policy: Policy) {
    forall k :: k in policy.CustomKeys() ==>
      NormalizeKey(k) == [] || IsSensitiveKey(k) || NormalizeKey(k) in policy.CustomKeys()
  }

  /** The checker reports nothing exactly on the payloads redaction leaves alone. */
  ghost predicate CheckerAgrees(policy: Policy) {
    forall context, v :: Unredacted(policy, context, v) == {} <==> Redacted(policy, Placeholder, context, v) == v
  }

  lemma {:induction false} CoveredRedaction(policy: Policy, context: Context, v: Json)
    requires policy.Active() && KeysCovered(policy)
    ensures Redacted(policy, Placeholder, context, v) ==
      Rewrite(Masks(policy.CustomKeys()), Placeholder, Message(context), v)
  {
    SameKeysIff(policy);
    SameKeysSameRewrite(Masks(policy.RedactorKeys()), Masks(policy.CustomKeys()), Placeholder, Message(context), v);
  }

  lemma {:induction false} NormalFormCovered(policy: Policy)
    requires InNormalForm(policy)
    ensures KeysCovered(policy)
  {
  }

  lemma {:induction false} OneField(masks: string -> bool, k: string)
    ensures var v := Obj(map[k := Null]);
      if masks(k) then Rewrite(masks, Placeholder, Message(Runtime), v) == Obj(map[k := MASK])
      else Findings(masks, Message(Runtime), "", v) == {}
  {
    var v := Obj(map[k := Null]);
    if masks(k) {
      assert FieldRole(masks, Message(Runtime), k, Null) == Masked;
      assert Rewrite(masks, Placeholder, Message(Runtime), v).fields == map[k := MASK];
    }
  }

  /** An uncovered key is masked by the redactor and never looked for by the checker. */
  lemma {:induction false} UncoveredKeyEscapes(policy: Policy, k: string)
    requires k in policy.CustomKeys() && NormalizeKey(k) != [] && !IsSensitiveKey(k)
      && NormalizeKey(k) !in policy.CustomKeys()
    ensures var v := Obj(map[k := Null]);
      Unredacted(policy, Runtime, v) == {} && Redacted(policy, Placeholder, Runtime, v) == Obj(map[k := MASK])
  {
    var keys := policy.CustomKeys();
    var i :| 0 <= i < |keys| && keys[i] == k;
    assert NormalizeKey(keys[i]) in policy.RedactorKeys();
    OneField(Masks(policy.RedactorKeys()), k);
    OneField(Masks(keys), k);
  }

  /** The two agree on every payload exactly when every extra key is covered; every policy that
      `from_cli` or `from_storage` builds is. */
  lemma {:induction false} AgreementIff(policy: Policy)
    requires policy.Active()
    ensures CheckerAgrees(policy) <==> KeysCovered(policy)
  {
    if KeysCovered(policy) {
      forall context, v
        ensures Unredacted(policy, context, v) == {} <==> Redacted(policy, Placeholder, context, v) == v
      {
        CoveredRedaction(policy, context, v);
        CleanIffFixpoint(Masks(policy.CustomKeys()), Message(context), "", v);
      }
    } else {
      var k :| k in policy.CustomKeys() && NormalizeKey(k) != [] && !IsSensitiveKey(k)
        && NormalizeKey(k) !in policy.CustomKeys();
      UncoveredKeyEscapes(policy, k);
      var v := Obj(map[k := Null]);
      assert v.fields[k] != MASK;
      assert !(Unredacted(policy, Runtime, v) == {} <==> Redacted(policy, Placeholder, Runtime, v) == v);
    }
  }

  /** For every policy in normal form, every context and every payload: the checker reports nothing exactly on the
   *  payloads redaction leaves alone; it passes every redacted payload; redacting twice is redacting once. */
  lemma {:induction false} CheckerMirrorsRedactor(policy: Policy, context: Context, v: Json)
    requires InNormalForm(policy)
    ensures Unredacted(policy, context, v) == {} <==> Redacted(policy, Placeholder, context, v) == v
    ensures Unredacted(policy, context, Redacted(policy, Placeholder, context, v)) == {}
    ensures var w := Redacted(policy, Placeholder, context, v); Redacted(policy, Placeholder, context, w) == w
  {
    if policy.Active() {
      NormalFormCovered(policy);
      AgreementIff(policy);
      assert CheckerAgrees(policy);
      CoveredRedaction(policy, context, v);
      RewriteClean(Masks(policy.CustomKeys()), Message(context), "", v);
    }
  }

  // ---------------------------------------------------------------- type-preserving redaction

  /** An array under a sensitive name among dependencies: its typed mask `[]` reads as an empty dependency list. */
  predicate BecomesDependencyList(role: Role, fieldRole: Role, child: Json) {
    role.Dependencies? && fieldRole == Masked && child.Arr?
  }

  /** Every masked value is a string, or an array that masking turns into a dependency list. */
  predicate TypedMasksAccepted(masks: string -> bool, role: Role, v: Json)
    decreases v
  {
    if role == Masked then v.Str?
    else if role == Exempt then true
    else match v
      case Obj(m) => forall k :: k in m ==>
        BecomesDependencyList(role, FieldRole(masks, role, k, m[k]), m[k])
          || TypedMasksAccepted(masks, FieldRole(masks, role, k, m[k]), m[k])
      case Arr(items) => forall i :: 0 <= i < |items| ==> TypedMasksAccepted(masks, ItemRole(role, items[i]), items[i])
      case _ => true
  }

  lemma {:induction false} TypedRoleStable(masks: string -> bool, role: Role, key: string, child: Json)
    ensures var r := FieldRole(masks, role, key, child);
      FieldRole(masks, role, key, Rewrite(masks, Typed, r, child)) ==
        (if BecomesDependencyList(role, r, child) then Exempt else r)
    ensures var r := ItemRole(role, child);
      ItemRole(role, Rewrite(masks, Typed, r, child)) == r
  {
    var r := FieldRole(masks, role, key, child);
    var out := Rewrite(masks, Typed, r, child);
    if role.Dependencies? && r == Plain && child.Arr? {
      var i :| 0 <= i < |child.items| && !child.items[i].Str?;
      assert out.items[i] == Rewrite(masks, Typed, Plain, child.items[i]);
    }
  }

  /** Type-preserving redaction satisfies the checker exactly when every value it masks is of such a kind. */
  lemma {:induction false} TypedAcceptedIff(masks: string -> bool, role: Role, key: string, v: Json)
    ensures Findings(masks, role, key, Rewrite(masks, Typed, role, v)) == {} <==> TypedMasksAccepted(masks, role, v)
    decreases v
  {
    if role == Masked || role == Exempt { return; }
    var w := Rewrite(masks, Typed, role, v);
    match v
    case Obj(m) =>
      forall k | k in m
        ensures Findings(masks, FieldRole(masks, role, k, w.fields[k]), k, w.fields[k]) == {} <==>
          (BecomesDependencyList(role, FieldRole(masks, role, k, m[k]), m[k])
            || TypedMasksAccepted(masks, FieldRole(masks, role, k, m[k]), m[k]))
      {
        TypedRoleStable(masks, role, k, m[k]);
        TypedAcceptedIff(masks, FieldRole(masks, role, k, m[k]), k, m[k]);
      }
      NoFieldFindings(masks, role, key, w);
    case Arr(items) =>
      forall i | 0 <= i < |items|
        ensures Findings(masks, ItemRole(role, w.items[i]), key, w.items[i]) == {} <==>
            TypedMasksAccepted(masks, ItemRole(role, items[i]), items[i])
      {
        TypedRoleStable(masks, role, key, items[i]);
        TypedAcceptedIff(masks, ItemRole(role, items[i]), key, items[i]);
      }
      NoItemFindings(masks, role, key, w);
    case _ =>
  }

  lemma {:induction false} NoFieldFindings(masks: string -> bool, role: Role, key: string, v: Json)
    requires v.Obj? && role != Masked && role != Exempt
    ensures Findings(masks, role, key, v) == {} <==>
      forall k :: k in v.fields ==> Findings(masks, FieldRole(masks, role, k, v.fields[k]), k, v.fields[k]) == {}
  {
    var m := v.fields;
    if Findings(masks, role, key, v) == {} {
      forall k | k in m ensures Findings(masks, FieldRole(masks, role, k, m[k]), k, m[k]) == {} {
        forall f ensures f !in Findings(masks, FieldRole(masks, role, k, m[k]), k, m[k]) {
          assert f !in Findings(masks, role, key, v);
        }
      }
    }
  }

  lemma {:induction false} NoItemFindings(masks: string -> bool, role: Role, key: string, v: Json)
    requires v.Arr? && role != Masked && role != Exempt
    ensures Findings(masks, role, key, v) == {} <==>
      forall i :: 0 <= i < |v.items| ==> Findings(masks, ItemRole(role, v.items[i]), key, v.items[i]) == {}
  {
    var items := v.items;
    if Findings(masks, role, key, v) == {} {
      forall i | 0 <= i < |items| ensures Findings(masks, ItemRole(role, items[i]), key, items[i]) == {} {
        forall f ensures f !in Findings(masks, ItemRole(role, items[i]), key, items[i]) {
          assert f !in Findings(masks, role, key, v);
        }
      }
    }
  }

  // ---------------------------------------------------------------- names kept for their place

  /** A place whose names are masked whatever stands under them. */
  predicate Flat(role: Role) { role == Plain || role == Message(Runtime) }

  /** No name that is masked elsewhere stands where its role keeps it, among the schemas of a map or the dependencies of
   *  a property. */
  predicate KeepsNoName(masks: string -> bool, role: Role, v: Json)
    decreases v
  {
    if role == Masked then true
    else match v
      case Obj(m) => forall k :: k in m ==>
        (masks(k) ==> FieldRole(masks, role, k, m[k]) == Masked)
        && KeepsNoName(masks, FieldRole(masks, role, k, m[k]), m[k])
      case Arr(items) => forall i :: 0 <= i < |items| ==> KeepsNoName(masks, ItemRole(role, items[i]), items[i])
      case _ => true
  }

  /** What was redacted in a role has nothing to mask outside it exactly when it keeps no name for its place. */
  lemma {:induction false} KeptNamesIff(masks: string -> bool, flat: Role, role: Role, key: string, v: Json)
    requires Flat(flat) && role != Masked && (role == Exempt ==> AllStrings(v))
    ensures Findings(masks, flat, key, Rewrite(masks, Placeholder, role, v)) == {} <==> KeepsNoName(masks, role, v)
    decreases v
  {
    var w := Rewrite(masks, Placeholder, role, v);
    match v
    case Obj(m) =>
      forall k | k in m
        ensures Findings(masks, FieldRole(masks, flat, k, w.fields[k]), k, w.fields[k]) == {} <==>
            (masks(k) ==> FieldRole(masks, role, k, m[k]) == Masked)
            && KeepsNoName(masks, FieldRole(masks, role, k, m[k]), m[k])
      {
        KeptNameIff(masks, flat, role, k, m[k]);
        if !masks(k) { KeptNamesIff(masks, Plain, FieldRole(masks, role, k, m[k]), k, m[k]); }
      }
      NoFieldFindings(masks, flat, key, w);
    case Arr(items) =>
      forall i | 0 <= i < |items|
        ensures Findings(masks, ItemRole(flat, w.items[i]), key, w.items[i]) == {} <==>
            KeepsNoName(masks, ItemRole(role, items[i]), items[i])
      {
        KeptNamesIff(masks, Plain, ItemRole(role, items[i]), key, items[i]);
      }
      NoItemFindings(masks, flat, key, w);
    case _ =>
  }

  /** A masked name that is kept has something under it that is not the placeholder. */
  lemma {:induction false} KeptNameIff(masks: string -> bool, flat: Role, role: Role, k: string, child: Json)
    requires Flat(flat) && role != Masked && role != Exempt
    ensures var r := FieldRole(masks, role, k, child);
      var out := Rewrite(masks, Placeholder, r, child);
      && FieldRole(masks, flat, k, out) == Visited(masks, k) && (r == Exempt ==> AllStrings(child))
      && (masks(k) ==> (out == MASK <==> r == Masked)) && (!masks(k) ==> r != Masked)
  {
  }

  /** What has nothing to mask as plain data has nothing to mask in any role. */
  lemma {:induction false} PlainCleanAnywhere(masks: string -> bool, flat: Role, role: Role, key: string, v: Json)
    requires Flat(flat) && role != Masked && Findings(masks, flat, key, v) == {}
    ensures Findings(masks, role, key, v) == {}
    decreases v
  {
    if role == Exempt { return; }
    match v
    case Obj(m) =>
      NoFieldFindings(masks, flat, key, v);
      forall k | k in m ensures Findings(masks, FieldRole(masks, role, k, m[k]), k, m[k]) == {} {
        assert FieldRole(masks, flat, k, m[k]) == Visited(masks, k);
        if FieldRole(masks, role, k, m[k]) != Masked && !masks(k) {
          PlainCleanAnywhere(masks, Plain, FieldRole(masks, role, k, m[k]), k, m[k]);
        }
      }
      NoFieldFindings(masks, role, key, v);
    case Arr(items) =>
      NoItemFindings(masks, flat, key, v);
      forall i | 0 <= i < |items| ensures Findings(masks, ItemRole(role, items[i]), key, items[i]) == {} {
        PlainCleanAnywhere(masks, Plain, ItemRole(role, items[i]), key, items[i]);
      }
      NoItemFindings(masks, role, key, v);
    case _ =>
  }

  /** Redaction in one context of what was redacted in another changes nothing, unless the first took a response for a
   *  tool list, the second does not, and some name is kept only for its place in one. */
  lemma {:induction false} SecondRedactionIff(masks: string -> bool, first: Context, second: Context, v: Json)
    ensures var w := Rewrite(masks, Placeholder, Message(first), v);
      Rewrite(masks, Placeholder, Message(second), w) == w <==>
        first == Runtime || second == ToolListResponse || KeepsNoName(masks, Message(ToolListResponse), v)
  {
    var w := Rewrite(masks, Placeholder, Message(first), v);
    CleanIffFixpoint(masks, Message(second), "", w);
    RewriteClean(masks, Message(first), "", v);
    if first == Runtime {
      PlainCleanAnywhere(masks, Message(Runtime), Message(second), "", w);
    } else if second == Runtime {
      KeptNamesIff(masks, Message(Runtime), Message(ToolListResponse), "", v);
    }
  }
}
