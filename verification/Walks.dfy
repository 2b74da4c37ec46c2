/** The traversals themselves, loop by loop, each proved to compute the role specification.

    `walk*` and their `walk*_typed` twins differ only in the mask they write,
        so one method with a style stands for both.
    The redactor's walks and the checker's collectors are written separately; only `walk_schema` serves both. */
module Walks {
  import opened Json
  import opened Policy
  import opened Redact

  /** What a traversal does at each visited place: rewrite it, or look for values left unmasked. */
  datatype Visitor = Rewriting(style: Style) | Checking

  function Written(masks: string -> bool, visitor: Visitor, role: Role, v: Json): Json {
    if visitor.Checking? then v else Rewrite(masks, visitor.style, role, v)
  }

  function Reported(masks: string -> bool, visitor: Visitor, role: Role, key: string, v: Json): set<string> {
    if visitor.Checking? then Findings(masks, role, key, v) else {}
  }

  // ---------------------------------------------------------------- loop state

  /** What a loop over the fields of an object is to write and to report, key by key. */
  ghost function Targets(masks: string -> bool, visitor: Visitor, role: Role, m: map<string, Json>): map<string, Json> {
    map k | k in m :: Written(masks, visitor, FieldRole(masks, role, k, m[k]), m[k])
  }

  ghost function Reports(masks: string -> bool, visitor: Visitor, role: Role, m: map<string, Json>): map<string,
                         set<string>> {
    map k | k in m :: Reported(masks, visitor, FieldRole(masks, role, k, m[k]), k, m[k])
  }

  ghost predicate Enumerates(keys: seq<string>, all: set<string>) {
    && (forall j :: 0 <= j < |keys| ==> keys[j] in all)
    && (forall k :: k in all ==> k in keys)
    && (forall i, j :: 0 <= i < j < |keys| ==> keys[i] != keys[j])
  }

  /** The keys of an object, in the order its entries are visited. */
  function Order(m: map<string, Json>): (keys: seq<string>)
    ensures Enumerates(keys, m.Keys)
  {
    AscendingDistinct(SortedKeys(m.Keys));
    SortedKeys(m.Keys)
  }

  /** The first `i` fields are done, the others untouched, and exactly the done ones have reported. */
  ghost predicate FieldsDone(targets: map<string, Json>, reports: map<string, set<string>>, m: map<string, Json>,
                             keys: seq<string>, i: nat, done: map<string, Json>, found: set<string>)
  {
    && i <= |keys| && done.Keys == targets.Keys == reports.Keys == m.Keys && Enumerates(keys, m.Keys)
    && (forall j :: 0 <= j < i ==> done[keys[j]] == targets[keys[j]])
    && (forall j :: i <= j < |keys| ==> done[keys[j]] == m[keys[j]])
    && (forall f :: f in found <==> exists j :: 0 <= j < i && f in reports[keys[j]])
  }

  lemma {:induction false} OneMore(targets: map<string, Json>, reports: map<string, set<string>>, m: map<string, Json>,
                keys: seq<string>, i: nat, done: map<string, Json>, found: set<string>)
    requires FieldsDone(targets, reports, m, keys, i, done, found) && i < |keys|
    ensures FieldsDone(targets, reports, m, keys, i + 1, done[keys[i] := targets[keys[i]]], found + reports[keys[i]])
  {
  }

  lemma {:induction false} OneWritten(targets: map<string, Json>, reports: map<string, set<string>>, m: map<string,
                                      Json>, keys: seq<string>, i: nat, done: map<string, Json>)
    requires FieldsDone(targets, reports, m, keys, i, done, {}) && i < |keys| && reports[keys[i]] == {}
    ensures FieldsDone(targets, reports, m, keys, i + 1, done[keys[i] := targets[keys[i]]], {})
  {
    OneMore(targets, reports, m, keys, i, done, {});
    assert {} + reports[keys[i]] == {};
  }

  lemma {:induction false} AllDone(targets: map<string, Json>, reports: map<string, set<string>>, m: map<string, Json>,
                keys: seq<string>, done: map<string, Json>, found: set<string>)
    requires FieldsDone(targets, reports, m, keys, |keys|, done, found)
    ensures done == targets
    ensures forall f :: f in found <==> exists k :: k in m && f in reports[k]
  {
    forall k | k in m ensures exists j :: 0 <= j < |keys| && keys[j] == k { assert k in keys; }
  }

  lemma {:induction false} TargetsAreWritten(masks: string -> bool, visitor: Visitor, role: Role, m: map<string, Json>)
    requires role != Masked && role != Exempt
    ensures Written(masks, visitor, role, Obj(m)) == Obj(Targets(masks, visitor, role, m))
  {
    assert visitor.Checking? ==> Targets(masks, visitor, role, m) == m;
  }

  lemma {:induction false} ReportsAreReported(masks: string -> bool, visitor: Visitor, role: Role, key: string,
                                              m: map<string, Json>, f: string)
    requires role != Masked && role != Exempt
    ensures f in Reported(masks, visitor, role, key, Obj(m)) <==>
      exists k :: k in m && f in Reports(masks, visitor, role, m)[k]
  {
    var reports := Reports(masks, visitor, role, m);
    if visitor.Checking? {
      assert forall k :: k in m ==> reports[k] == Findings(masks, FieldRole(masks, role, k, m[k]), k, m[k]);
    }
  }

  lemma {:induction false} FieldsComplete(masks: string -> bool, visitor: Visitor, role: Role, key: string,
                                          m: map<string, Json>,
                       keys: seq<string>, done: map<string, Json>, found: set<string>)
    requires FieldsDone(Targets(masks, visitor, role, m), Reports(masks, visitor, role, m), m, keys, |keys|, done,
                        found)
    requires role != Masked && role != Exempt
    ensures Obj(done) == Written(masks, visitor, role, Obj(m))
    ensures found == Reported(masks, visitor, role, key, Obj(m))
  {
    AllDone(Targets(masks, visitor, role, m), Reports(masks, visitor, role, m), m, keys, done, found);
    TargetsAreWritten(masks, visitor, role, m);
    forall f { ReportsAreReported(masks, visitor, role, key, m, f); }
  }

  ghost predicate ItemsDone(masks: string -> bool, visitor: Visitor, role: Role, key: string, items: seq<Json>,
                            i: nat, done: seq<Json>, found: set<string>)
  {
    && i <= |items| && |done| == |items|
    && (forall j :: 0 <= j < i ==> done[j] == Written(masks, visitor, ItemRole(role, items[j]), items[j]))
    && (forall j :: i <= j < |items| ==> done[j] == items[j])
    && (forall f :: f in found <==>
          exists j :: 0 <= j < i && f in Reported(masks, visitor, ItemRole(role, items[j]), key, items[j]))
  }

  lemma {:induction false} ItemStep(masks: string -> bool, visitor: Visitor, role: Role, key: string, items: seq<Json>,
                 i: nat, done: seq<Json>, found: set<string>, next: Json, more: set<string>)
    requires ItemsDone(masks, visitor, role, key, items, i, done, found) && i < |items|
    requires next == Written(masks, visitor, ItemRole(role, items[i]), items[i])
    requires more == Reported(masks, visitor, ItemRole(role, items[i]), key, items[i])
    ensures ItemsDone(masks, visitor, role, key, items, i + 1, done[i := next], found + more)
  {
  }

  lemma {:induction false} ItemsComplete(masks: string -> bool, visitor: Visitor, role: Role, key: string,
                                         items: seq<Json>, done: seq<Json>, found: set<string>)
    requires ItemsDone(masks, visitor, role, key, items, |items|, done, found)
    requires role != Masked && role != Exempt
    ensures Arr(done) == Written(masks, visitor, role, Arr(items))
    ensures found == Reported(masks, visitor, role, key, Arr(items))
  {
    assert done == Written(masks, visitor, role, Arr(items)).items;
  }

  lemma {:induction false} SameUpdate(m: map<string, Json>, k: string)
    requires k in m
    ensures m[k := m[k]] == m
  {
  }

  // ---------------------------------------------------------------- plain walk and plain search

  /** `walk`. */
  method Walk(masks: string -> bool, style: Style, value: Json) returns (out: Json)
    ensures out == Rewrite(masks, style, Plain, value)
    decreases value, 1
  {
    match value
    case Obj(m) => out := WalkFields(masks, style, value);
    case Arr(items) => out := WalkItems(masks, style, value);
    case _ => out := value;
  }

  /** A rewriting loop has done the first `i` fields. */
  ghost predicate WritesDone(masks: string -> bool, style: Style, role: Role, m: map<string, Json>, keys: seq<string>,
                             i: nat, done: map<string, Json>)
  {
    var visitor := Rewriting(style);
    FieldsDone(Targets(masks, visitor, role, m), Reports(masks, visitor, role, m), m, keys, i, done, {})
  }

  lemma {:induction false} WritesNext(masks: string -> bool, style: Style, role: Role, m: map<string, Json>,
                                      keys: seq<string>, i: nat, done: map<string, Json>, next: Json)
    requires WritesDone(masks, style, role, m, keys, i, done) && i < |keys| && keys[i] in m
    requires next == Rewrite(masks, style, FieldRole(masks, role, keys[i], m[keys[i]]), m[keys[i]])
    ensures WritesDone(masks, style, role, m, keys, i + 1, done[keys[i] := next])
  {
    var targets, reports := Targets(masks, Rewriting(style), role, m), Reports(masks, Rewriting(style), role, m);
    OneWritten(targets, reports, m, keys, i, done);
  }

  lemma {:induction false} WritesComplete(masks: string -> bool, style: Style, role: Role, m: map<string, Json>,
                                          keys: seq<string>, done: map<string, Json>)
    requires WritesDone(masks, style, role, m, keys, |keys|, done) && role != Masked && role != Exempt
    ensures Obj(done) == Rewrite(masks, style, role, Obj(m))
  {
    FieldsComplete(masks, Rewriting(style), role, "", m, keys, done, {});
  }

  /** A searching loop has done the first `i` fields. */
  ghost predicate FindsDone(masks: string -> bool, role: Role, m: map<string, Json>, keys: seq<string>, i: nat,
                            found: set<string>)
  {
    FieldsDone(Targets(masks, Checking, role, m), Reports(masks, Checking, role, m), m, keys, i, m, found)
  }

  lemma {:induction false} FindsNext(masks: string -> bool, role: Role, m: map<string, Json>, keys: seq<string>, i: nat,
                                     found: set<string>, more: set<string>)
    requires FindsDone(masks, role, m, keys, i, found) && i < |keys| && keys[i] in m
    requires more == Findings(masks, FieldRole(masks, role, keys[i], m[keys[i]]), keys[i], m[keys[i]])
    ensures FindsDone(masks, role, m, keys, i + 1, found + more)
  {
    OneMore(Targets(masks, Checking, role, m), Reports(masks, Checking, role, m), m, keys, i, m, found);
    SameUpdate(m, keys[i]);
  }

  lemma {:induction false} FindsComplete(masks: string -> bool, role: Role, key: string, m: map<string, Json>,
                                         keys: seq<string>, found: set<string>)
    requires FindsDone(masks, role, m, keys, |keys|, found) && role != Masked && role != Exempt
    ensures found == Findings(masks, role, key, Obj(m))
  {
    FieldsComplete(masks, Checking, role, key, m, keys, m, found);
  }

  method WalkFields(masks: string -> bool, style: Style, value: Json) returns (out: Json)
    requires value.Obj?
    ensures out == Rewrite(masks, style, Plain, value)
    decreases value, 0
  {
    var m := value.fields;
    var keys, done := Order(m), m;
    for i := 0 to |keys|
      invariant WritesDone(masks, style, Plain, m, keys, i, done)
    {
      var next := MaskOrWalk(masks, style, keys[i], m[keys[i]]);
      WritesNext(masks, style, Plain, m, keys, i, done, next);
      done := done[keys[i] := next];
    }
    WritesComplete(masks, style, Plain, m, keys, done);
    out := Obj(done);
  }

  method MaskOrWalk(masks: string -> bool, style: Style, key: string, child: Json) returns (out: Json)
    ensures out == Rewrite(masks, style, Visited(masks, key), child)
    decreases child, 2
  {
    if masks(key) {
      out := Mask(style, child);
    } else {
      out := Walk(masks, style, child);
    }
  }

  method WalkItems(masks: string -> bool, style: Style, value: Json) returns (out: Json)
    requires value.Arr?
    ensures out == Rewrite(masks, style, Plain, value)
    decreases value, 0
  {
    var items, visitor := value.items, Rewriting(style);
    var done := items;
    for i := 0 to |items|
      invariant ItemsDone(masks, visitor, Plain, "", items, i, done, {})
    {
      var next := Walk(masks, style, items[i]);
      ItemStep(masks, visitor, Plain, "", items, i, done, {}, next, {});
      done := done[i := next];
    }
    ItemsComplete(masks, visitor, Plain, "", items, done, {});
    out := Arr(done);
  }

  method PushIfUnredacted(masks: string -> bool, key: string, child: Json) returns (found: set<string>)
    ensures found == Findings(masks, Visited(masks, key), key, child)
    decreases child, 2
  {
    if masks(key) {
      found := if child != MASK then {key} else {};
    } else {
      found := CollectPlain(masks, key, child);
    }
  }

  /** `collect_unredacted_sensitive_keys`; `key` only names the place and is never reported by it. */
  method CollectPlain(masks: string -> bool, key: string, value: Json) returns (found: set<string>)
    ensures found == Findings(masks, Plain, key, value)
    decreases value, 1
  {
    match value
    case Obj(m) => found := CollectFields(masks, key, value);
    case Arr(items) => found := CollectItems(masks, key, value);
    case _ => found := {};
  }

  method CollectFields(masks: string -> bool, key: string, value: Json) returns (found: set<string>)
    requires value.Obj?
    ensures found == Findings(masks, Plain, key, value)
    decreases value, 0
  {
    var m := value.fields;
    var keys := Order(m);
    found := {};
    for i := 0 to |keys|
      invariant FindsDone(masks, Plain, m, keys, i, found)
    {
      var more := PushIfUnredacted(masks, keys[i], m[keys[i]]);
      FindsNext(masks, Plain, m, keys, i, found, more);
      found := found + more;
    }
    FindsComplete(masks, Plain, key, m, keys, found);
  }

  method CollectItems(masks: string -> bool, key: string, value: Json) returns (found: set<string>)
    requires value.Arr?
    ensures found == Findings(masks, Plain, key, value)
    decreases value, 0
  {
    var items := value.items;
    found := {};
    for i := 0 to |items|
      invariant ItemsDone(masks, Checking, Plain, key, items, i, items, found)
    {
      var more := CollectPlain(masks, key, items[i]);
      ItemStep(masks, Checking, Plain, key, items, i, items, found, items[i], more);
      assert items[i := items[i]] == items;
      found := found + more;
    }
    ItemsComplete(masks, Checking, Plain, key, items, items, found);
  }

  /** A place visited as an ordinary value: masked or walked, or searched. */
  method Visit(masks: string -> bool, visitor: Visitor, key: string, value: Json)
    returns (out: Json, found: set<string>)
    ensures out == Written(masks, visitor, Visited(masks, key), value)
    ensures found == Reported(masks, visitor, Visited(masks, key), key, value)
  {
    out, found := value, {};
    if visitor.Checking? {
      found := PushIfUnredacted(masks, key, value);
    } else {
      out := MaskOrWalk(masks, visitor.style, key, value);
    }
  }

  // ---------------------------------------------------------------- schemas, shared by redactor and checker

  /** `walk_schema`: `key` names the place the schema stands at. */
  method WalkSchema(masks: string -> bool, visitor: Visitor, key: string, value: Json)
    returns (out: Json, found: set<string>)
    requires !masks("")
    ensures out == Written(masks, visitor, Schema, value)
    ensures found == Reported(masks, visitor, Schema, key, value)
    decreases value, 3
  {
    match value
    case Obj(_) => out, found := WalkObject(masks, visitor, Schema, key, value);
    case Bool(_) => out, found := value, {};
    case _ =>
      out, found := Visit(masks, visitor, "", value);
      NonObjectAsPlain(masks, visitor, Schema, key, "", value);
  }

  /** The loops over the entries of an object, one for each role an object may stand in. */
  method WalkObject(masks: string -> bool, visitor: Visitor, role: Role, key: string, value: Json)
    returns (out: Json, found: set<string>)
    requires !masks("") && value.Obj? && (role == Schema || role == NamedSchemas || role.Dependencies?)
    ensures out == Written(masks, visitor, role, value)
    ensures found == Reported(masks, visitor, role, key, value)
    decreases value, 2
  {
    var m := value.fields;
    var keys := Order(m);
    var done := m;
    found := {};
    ghost var targets, reports := Targets(masks, visitor, role, m), Reports(masks, visitor, role, m);
    for i := 0 to |keys|
      invariant FieldsDone(targets, reports, m, keys, i, done, found)
    {
      var next, more := WalkEntry(masks, visitor, role, keys[i], m[keys[i]]);
      OneMore(targets, reports, m, keys, i, done, found);
      assert next == targets[keys[i]] && more == reports[keys[i]];
      done, found := done[keys[i] := next], found + more;
    }
    FieldsComplete(masks, visitor, role, key, m, keys, done, found);
    out := Obj(done);
  }

  /** The body of those loops: which walk an entry gets. */
  method WalkEntry(masks: string -> bool, visitor: Visitor, role: Role, key: string, child: Json)
    returns (out: Json, found: set<string>)
    requires !masks("") && (role == Schema || role == NamedSchemas || role.Dependencies?)
    ensures out == Written(masks, visitor, FieldRole(masks, role, key, child), child)
    ensures found == Reported(masks, visitor, FieldRole(masks, role, key, child), key, child)
    decreases child, 6
  {
    match role
    case NamedSchemas =>
      if IsContainer(child) {
        out, found := WalkSchema(masks, visitor, key, child);
      } else {
        out, found := Visit(masks, visitor, key, child);
      }
    case Dependencies(nested) =>
      if AllStrings(child) {
        out, found := child, {};
      } else if nested && IsContainer(child) {
        out, found := WalkSchema(masks, visitor, key, child);
      } else {
        out, found := Visit(masks, visitor, key, child);
      }
    case Schema =>
      if masks(key) {
        out, found := Visit(masks, visitor, key, child);
      } else {
        out, found := WalkKeyword(masks, visitor, key, child);
      }
  }

  /** The keyword dispatch of `walk_schema`. */
  method WalkKeyword(masks: string -> bool, visitor: Visitor, key: string, child: Json)
    returns (out: Json, found: set<string>)
    requires !masks("") && !masks(key)
    ensures out == Written(masks, visitor, SchemaRole(key, child), child)
    ensures found == Reported(masks, visitor, SchemaRole(key, child), key, child)
    decreases child, 5
  {
    if IsSchemaMapKey(key) && child.Obj? {
      out, found := WalkObject(masks, visitor, NamedSchemas, key, child);
    } else if IsSubschemaKey(key) && IsContainer(child) {
      out, found := WalkSchema(masks, visitor, key, child);
    } else if IsSchemaListKey(key) && child.Arr? {
      out, found := WalkList(masks, visitor, key, child);
    } else if (key == "dependencies" || key == "dependentRequired") && child.Obj? {
      out, found := WalkObject(masks, visitor, Dependencies(key == "dependencies"), key, child);
    } else {
      out, found := Visit(masks, visitor, key, child);
    }
  }

  /** The loop over a list of schemas. */
  method WalkList(masks: string -> bool, visitor: Visitor, key: string, value: Json)
    returns (out: Json, found: set<string>)
    requires !masks("") && value.Arr? && !masks(key)
    ensures out == Written(masks, visitor, SchemaList, value)
    ensures found == Reported(masks, visitor, SchemaList, key, value)
    decreases value, 2
  {
    var items := value.items;
    var done := items;
    found := {};
    for i := 0 to |items|
      invariant ItemsDone(masks, visitor, SchemaList, key, items, i, done, found)
    {
      var next, more;
      if IsContainer(items[i]) {
        next, more := WalkSchema(masks, visitor, key, items[i]);
      } else {
        next, more := Visit(masks, visitor, key, items[i]);
      }
      ItemStep(masks, visitor, SchemaList, key, items, i, done, found, next, more);
      done, found := done[i := next], found + more;
    }
    ItemsComplete(masks, visitor, SchemaList, key, items, done, found);
    out := Arr(done);
  }

  /** A value that is no object is the same in these roles as a plain value, wherever it stands. */
  lemma {:induction false} NonObjectAsPlain(masks: string -> bool, visitor: Visitor, role: Role, key: string,
                                            place: string, v: Json)
    requires !v.Obj? && (role == Schema || role.Message? || role == ListResult || role == ToolDefinition)
    ensures Written(masks, visitor, role, v) == Written(masks, visitor, Plain, v)
    ensures Reported(masks, visitor, role, key, v) == Reported(masks, visitor, Plain, place, v)
  {
    if v.Arr? && visitor.Checking? {
      forall i | 0 <= i < |v.items|
        ensures Findings(masks, ItemRole(role, v.items[i]), key, v.items[i]) ==
          Findings(masks, ItemRole(Plain, v.items[i]),
            place, v.items[i])
      {
        PlaceIrrelevant(masks, key, place, v.items[i]);
      }
      assert Findings(masks, role, key, v) == Findings(masks, Plain, place, v);
    }
  }

  /** A place's own key is reported only when the place itself is masked. */
  lemma {:induction false} PlaceIrrelevant(masks: string -> bool, key: string, place: string, v: Json)
    ensures Findings(masks, Plain, key, v) == Findings(masks, Plain, place, v)
    decreases v
  {
    if v.Arr? {
      forall i | 0 <= i < |v.items| { PlaceIrrelevant(masks, key, place, v.items[i]); }
    }
  }

  // ---------------------------------------------------------------- the redactor's walks over a message

  /** `walk_tool_definition`. */
  method WalkToolDefinition(masks: string -> bool, style: Style, value: Json) returns (out: Json)
    requires !masks("")
    ensures out == Rewrite(masks, style, ToolDefinition, value)
  {
    if !value.Obj? {
      out := Walk(masks, style, value);
      NonObjectAsPlain(masks, Rewriting(style), ToolDefinition, "", "", value);
      return;
    }
    var m := value.fields;
    var keys, done := Order(m), m;
    for i := 0 to |keys|
      invariant WritesDone(masks, style, ToolDefinition, m, keys, i, done)
    {
      var next := WalkToolField(masks, style, keys[i], m[keys[i]]);
      WritesNext(masks, style, ToolDefinition, m, keys, i, done, next);
      done := done[keys[i] := next];
    }
    WritesComplete(masks, style, ToolDefinition, m, keys, done);
    out := Obj(done);
  }

  method WalkToolField(masks: string -> bool, style: Style, key: string, child: Json) returns (out: Json)
    requires !masks("")
    ensures out == Rewrite(masks, style, FieldRole(masks, ToolDefinition, key, child), child)
  {
    if masks(key) {
      out := Mask(style, child);
    } else if IsToolSchemaKey(key) {
      var found;
      out, found := WalkSchema(masks, Rewriting(style), key, child);
    } else {
      out := Walk(masks, style, child);
    }
  }

  /** The loop over `result.tools`. */
  method WalkTools(masks: string -> bool, style: Style, value: Json) returns (out: Json)
    requires !masks("") && value.Arr?
    ensures out == Rewrite(masks, style, ToolList, value)
  {
    var items, visitor := value.items, Rewriting(style);
    var done := items;
    for i := 0 to |items|
      invariant ItemsDone(masks, visitor, ToolList, "", items, i, done, {})
    {
      var next := WalkToolDefinition(masks, style, items[i]);
      ItemStep(masks, visitor, ToolList, "", items, i, done, {}, next, {});
      done := done[i := next];
    }
    ItemsComplete(masks, visitor, ToolList, "", items, done, {});
    out := Arr(done);
  }

  /** `walk_result`. */
  method WalkResult(masks: string -> bool, style: Style, value: Json) returns (out: Json)
    requires !masks("")
    ensures out == Rewrite(masks, style, ListResult, value)
  {
    if !value.Obj? {
      out := Walk(masks, style, value);
      NonObjectAsPlain(masks, Rewriting(style), ListResult, "", "", value);
      return;
    }
    var m := value.fields;
    var keys, done := Order(m), m;
    for i := 0 to |keys|
      invariant WritesDone(masks, style, ListResult, m, keys, i, done)
    {
      var next := WalkResultField(masks, style, keys[i], m[keys[i]]);
      WritesNext(masks, style, ListResult, m, keys, i, done, next);
      done := done[keys[i] := next];
    }
    WritesComplete(masks, style, ListResult, m, keys, done);
    out := Obj(done);
  }

  method WalkResultField(masks: string -> bool, style: Style, key: string, child: Json) returns (out: Json)
    requires !masks("")
    ensures out == Rewrite(masks, style, FieldRole(masks, ListResult, key, child), child)
  {
    if key == "tools" && !masks(key) && child.Arr? {
      out := WalkTools(masks, style, child);
    } else if masks(key) {
      out := Mask(style, child);
    } else {
      out := Walk(masks, style, child);
    }
  }

  /** `walk_message`. */
  method WalkMessage(masks: string -> bool, style: Style, context: Context, value: Json) returns (out: Json)
    requires !masks("")
    ensures out == Rewrite(masks, style, Message(context), value)
  {
    if !value.Obj? {
      out := Walk(masks, style, value);
      NonObjectAsPlain(masks, Rewriting(style), Message(context), "", "", value);
      return;
    }
    var m, role := value.fields, Message(context);
    var keys, done := Order(m), m;
    for i := 0 to |keys|
      invariant WritesDone(masks, style, role, m, keys, i, done)
    {
      var next := WalkMessageField(masks, style, context, keys[i], m[keys[i]]);
      WritesNext(masks, style, role, m, keys, i, done, next);
      done := done[keys[i] := next];
    }
    WritesComplete(masks, style, role, m, keys, done);
    out := Obj(done);
  }

  method WalkMessageField(masks: string -> bool, style: Style, context: Context, key: string, child: Json)
    returns (out: Json)
    requires !masks("")
    ensures out == Rewrite(masks, style, FieldRole(masks, Message(context), key, child), child)
  {
    if masks(key) {
      out := Mask(style, child);
    } else if key == "result" && context == ToolListResponse {
      out := WalkResult(masks, style, child);
    } else {
      out := Walk(masks, style, child);
    }
  }

  // ---------------------------------------------------------------- the checker's collectors over a message

  /** `collect_unredacted_tool_definition`. */
  method CollectToolDefinition(masks: string -> bool, key: string, value: Json) returns (found: set<string>)
    requires !masks("")
    ensures found == Findings(masks, ToolDefinition, key, value)
  {
    if !value.Obj? {
      found := CollectPlain(masks, key, value);
      NonObjectAsPlain(masks, Checking, ToolDefinition, key, key, value);
      return;
    }
    var m := value.fields;
    var keys := Order(m);
    found := {};
    for i := 0 to |keys|
      invariant FindsDone(masks, ToolDefinition, m, keys, i, found)
    {
      var more := CollectToolField(masks, keys[i], m[keys[i]]);
      FindsNext(masks, ToolDefinition, m, keys, i, found, more);
      found := found + more;
    }
    FindsComplete(masks, ToolDefinition, key, m, keys, found);
  }

  method CollectToolField(masks: string -> bool, key: string, child: Json) returns (found: set<string>)
    requires !masks("")
    ensures found == Findings(masks, FieldRole(masks, ToolDefinition, key, child), key, child)
  {
    if IsToolSchemaKey(key) && !masks(key) {
      var schema;
      schema, found := WalkSchema(masks, Checking, key, child);
    } else {
      found := PushIfUnredacted(masks, key, child);
    }
  }

  method CollectTools(masks: string -> bool, key: string, value: Json) returns (found: set<string>)
    requires !masks("") && value.Arr?
    ensures found == Findings(masks, ToolList, key, value)
  {
    var items := value.items;
    found := {};
    for i := 0 to |items|
      invariant ItemsDone(masks, Checking, ToolList, key, items, i, items, found)
    {
      var more := CollectToolDefinition(masks, key, items[i]);
      ItemStep(masks, Checking, ToolList, key, items, i, items, found, items[i], more);
      assert items[i := items[i]] == items;
      found := found + more;
    }
    ItemsComplete(masks, Checking, ToolList, key, items, items, found);
  }

  /** `collect_unredacted_result`. */
  method CollectResult(masks: string -> bool, key: string, value: Json) returns (found: set<string>)
    requires !masks("")
    ensures found == Findings(masks, ListResult, key, value)
  {
    if !value.Obj? {
      found := CollectPlain(masks, key, value);
      NonObjectAsPlain(masks, Checking, ListResult, key, key, value);
      return;
    }
    var m := value.fields;
    var keys := Order(m);
    found := {};
    for i := 0 to |keys|
      invariant FindsDone(masks, ListResult, m, keys, i, found)
    {
      var more := CollectResultField(masks, keys[i], m[keys[i]]);
      FindsNext(masks, ListResult, m, keys, i, found, more);
      found := found + more;
    }
    FindsComplete(masks, ListResult, key, m, keys, found);
  }

  method CollectResultField(masks: string -> bool, key: string, child: Json) returns (found: set<string>)
    requires !masks("")
    ensures found == Findings(masks, FieldRole(masks, ListResult, key, child), key, child)
  {
    if key == "tools" && !masks(key) && child.Arr? {
      found := CollectTools(masks, key, child);
    } else {
      found := PushIfUnredacted(masks, key, child);
    }
  }

  /** `collect_unredacted_message`. */
  method CollectMessage(masks: string -> bool, context: Context, value: Json) returns (found: set<string>)
    requires !masks("")
    ensures found == Findings(masks, Message(context), "", value)
  {
    if !value.Obj? {
      found := CollectPlain(masks, "", value);
      NonObjectAsPlain(masks, Checking, Message(context), "", "", value);
      return;
    }
    var m, role := value.fields, Message(context);
    var keys := Order(m);
    found := {};
    for i := 0 to |keys|
      invariant FindsDone(masks, role, m, keys, i, found)
    {
      var more := CollectMessageField(masks, context, keys[i], m[keys[i]]);
      FindsNext(masks, role, m, keys, i, found, more);
      found := found + more;
    }
    FindsComplete(masks, role, "", m, keys, found);
  }

  method CollectMessageField(masks: string -> bool, context: Context, key: string, child: Json)
    returns (found: set<string>)
    requires !masks("")
    ensures found == Findings(masks, FieldRole(masks, Message(context), key, child), key, child)
  {
    if key == "result" && context == ToolListResponse && !masks(key) {
      found := CollectResult(masks, key, child);
    } else {
      found := PushIfUnredacted(masks, key, child);
    }
  }

  // ---------------------------------------------------------------- the two entry points

  /** `Redactor::redact_with_context` and its type-preserving twin. */
  method RedactWithContext(policy: Policy, style: Style, context: Context, value: Json) returns (out: Json)
    ensures out == Redacted(policy, style, context, value)
  {
    out := value;
    if policy.Active() { out := WalkMessage(Masks(policy.RedactorKeys()), style, context, value); }
  }

  /** `unredacted_sensitive_keys_with_context`: the keys found, sorted and without repetition. */
  method UnredactedSensitiveKeys(policy: Policy, context: Context, value: Json) returns (keys: seq<string>)
    ensures keys == SortedKeys(Unredacted(policy, context, value))
  {
    var found := {};
    if policy.Active() { found := CollectMessage(Masks(policy.CustomKeys()), context, value); }
    keys := SortedKeys(found);
  }
}
