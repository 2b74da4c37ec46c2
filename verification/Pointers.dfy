/** Structural comparison of two JSON trees, reported by RFC 6901 pointers. */
module Pointers {
  import opened Json
  import opened Policy

  datatype PointerDiff = PointerDiff(pointer: string, from: Option<Json>, to: Option<Json>)

  // ---------------------------------------------------------------- tokens and pointers

  /** `~` and `/` have no place in a reference token. */
  function EscapeToken(token: string): string {
    if token == "" then "" else
    (if token[0] == '~' then "~0" else if token[0] == '/' then "~1" else [token[0]]) + EscapeToken(token[1..])
  }

  function UnescapeToken(token: string): string {
    if token == "" then ""
    else if |token| > 1 && token[0] == '~' && token[1] == '0' then "~" + UnescapeToken(token[2..])
    else if |token| > 1 && token[0] == '~' && token[1] == '1' then "/" + UnescapeToken(token[2..])
    else [token[0]] + UnescapeToken(token[1..])
  }

  lemma {:induction false} EscapeRoundTrip(token: string)
    ensures UnescapeToken(EscapeToken(token)) == token && '/' !in EscapeToken(token)
  {
    if token != "" {
      EscapeRoundTrip(token[1..]);
      var rest := EscapeToken(token[1..]);
      assert token == [token[0]] + token[1..];
      if token[0] == '~' || token[0] == '/' {
        assert EscapeToken(token)[2..] == rest;
      } else {
        assert EscapeToken(token)[1..] == rest;
      }
    }
  }

  function ChildPointer(pointer: string, token: string): string { pointer + "/" + EscapeToken(token) }

  /** The pointer that names a path of keys and indices. */
  function Render(path: seq<string>): string {
    if |path| == 0 then "" else ChildPointer(Render(path[..|path| - 1]), path[|path| - 1])
  }

  predicate IsPointer(pointer: string) { pointer == "" || pointer[0] == '/' }

  /** The reference tokens of a pointer, unescaped: section 4 of RFC 6901. */
  function Tokens(pointer: string): seq<string>
    requires IsPointer(pointer)
  {
    if pointer == "" then [] else
    var end := LastSlash(pointer);
    Tokens(pointer[..end]) + [UnescapeToken(pointer[end + 1..])]
  }

  function LastSlash(pointer: string): (i: nat)
    requires pointer != "" && pointer[0] == '/'
    ensures i < |pointer| && pointer[i] == '/' && forall k :: i < k < |pointer| ==> pointer[k] != '/'
  {
    var last := |pointer| - 1;
    if pointer[last] == '/' then last else LastSlash(pointer[..last])
  }

  lemma {:induction false} LastSlashOf(before: string, token: string)
    requires IsPointer(before) && '/' !in token
    ensures LastSlash(before + "/" + token) == |before|
  {
    var pointer := before + "/" + token;
    var i := LastSlash(pointer);
    assert pointer[|before|] == '/';
    assert forall k :: |before| < k < |pointer| ==> pointer[k] == token[k - |before| - 1];
  }

  /** A pointer spells its path, so different paths have different pointers. */
  lemma {:induction false} PathRoundTrip(path: seq<string>)
    ensures IsPointer(Render(path)) && Tokens(Render(path)) == path
  {
    if |path| > 0 {
      var init, last := path[..|path| - 1], path[|path| - 1];
      PathRoundTrip(init);
      EscapeRoundTrip(last);
      LastSlashOf(Render(init), EscapeToken(last));
      var pointer := Render(path);
      assert pointer[..|Render(init)|] == Render(init) && pointer[|Render(init)| + 1..] == EscapeToken(last);
      assert path == init + [last];
    }
  }

  // ---------------------------------------------------------------- evaluation

  function DigitsValue(s: string): nat
    requires forall i :: 0 <= i < |s| ==> IsDigit(s[i])
  {
    if s == "" then 0 else
    assert IsDigit(s[|s| - 1]);
    DigitsValue(s[..|s| - 1]) * 10 + (s[|s| - 1] as int - '0' as int)
  }

  /** Decimal digits without a leading zero. */
  function ArrayIndex(token: string): Option<nat> {
    if (forall i :: 0 <= i < |token| ==> IsDigit(token[i])) && Decimal(DigitsValue(token)) == token
    then Some(DigitsValue(token)) else None
  }

  lemma {:induction false} IndexOfDecimal(n: nat)
    ensures ArrayIndex(Decimal(n)) == Some(n)
  {
    DecimalValue(n);
  }

  lemma {:induction false} DecimalValue(n: nat)
    ensures DigitsValue(Decimal(n)) == n
  {
    if n >= 10 {
      DecimalValue(n / 10);
      assert Decimal(n)[..|Decimal(n)| - 1] == Decimal(n / 10);
    } else {
      assert Decimal(n)[..0] == "";
    }
  }

  function Descend(v: Json, token: string): Option<Json> {
    match v
    case Obj(fields) => if token in fields then Some(fields[token]) else None
    case Arr(items) =>
      (match ArrayIndex(token) case Some(i) => if i < |items| then Some(items[i]) else None case None => None)
    case _ => None
  }

  function Walk(v: Json, path: seq<string>): Option<Json> {
    if |path| == 0 then Some(v) else
    match Descend(v, path[0]) case Some(child) => Walk(child, path[1..]) case None => None
  }

  /** The value a pointer refers to, if it refers to one. */
  function Evaluate(v: Json, pointer: string): Option<Json> {
    if IsPointer(pointer) then Walk(v, Tokens(pointer)) else None
  }

  // ---------------------------------------------------------------- the comparison

  predicate IsRedacted(v: Json) { v == Str(PLACEHOLDER) }

  /** A difference under its path; the pointers are rendered below. */
  datatype PathDiff = PathDiff(path: seq<string>, from: Option<Json>, to: Option<Json>)

  function Diffs(a: Json, b: Json, path: seq<string>): seq<PathDiff>
    decreases a, 1, 0
  {
    if IsRedacted(a) || IsRedacted(b) then []
    else if a.Obj? && b.Obj? then
      FieldDiffs(a, b, SortedKeys(a.fields.Keys), path) + AddedDiffs(a, b, SortedKeys(b.fields.Keys), path)
    else if a.Arr? && b.Arr? then ItemDiffs(a, b, 0, path)
    else if a != b then [PathDiff(path, Some(a), Some(b))] else []
  }

  function FieldDiffs(a: Json, b: Json, keys: seq<string>, path: seq<string>): seq<PathDiff>
    requires a.Obj? && b.Obj? && forall k :: k in keys ==> k in a.fields
    decreases a, 0, |keys|
  {
    if |keys| == 0 then [] else
    FieldDiff(a, b, keys[0], path) + FieldDiffs(a, b, keys[1..], path)
  }

  function FieldDiff(a: Json, b: Json, k: string, path: seq<string>): seq<PathDiff>
    requires a.Obj? && b.Obj? && k in a.fields
    decreases a, 0, 0
  {
    if k in b.fields then Diffs(a.fields[k], b.fields[k], path + [k])
    else [PathDiff(path + [k], Some(a.fields[k]), None)]
  }

  function AddedDiffs(a: Json, b: Json, keys: seq<string>, path: seq<string>): seq<PathDiff>
    requires a.Obj? && b.Obj? && forall k :: k in keys ==> k in b.fields
  {
    if |keys| == 0 then [] else
    (if keys[0] in a.fields then [] else [PathDiff(path + [keys[0]], None, Some(b.fields[keys[0]]))])
      + AddedDiffs(a, b, keys[1..], path)
  }

  function ItemDiffs(a: Json, b: Json, i: nat, path: seq<string>): seq<PathDiff>
    requires a.Arr? && b.Arr?
    decreases a, 0, MaxLength(a, b) - i
  {
    if i >= MaxLength(a, b) then [] else ItemDiff(a, b, i, path) + ItemDiffs(a, b, i + 1, path)
  }

  function MaxLength(a: Json, b: Json): nat
    requires a.Arr? && b.Arr?
  {
    if |a.items| < |b.items| then |b.items| else |a.items|
  }

  function ItemDiff(a: Json, b: Json, i: nat, path: seq<string>): seq<PathDiff>
    requires a.Arr? && b.Arr? && i < MaxLength(a, b)
    decreases a, 0, 0
  {
    var child := path + [Decimal(i)];
    if i < |a.items| && i < |b.items| then Diffs(a.items[i], b.items[i], child)
    else if i < |a.items| then [PathDiff(child, Some(a.items[i]), None)]
    else [PathDiff(child, None, Some(b.items[i]))]
  }

  function RenderAll(diffs: seq<PathDiff>): seq<PointerDiff> {
    seq(|diffs|, i requires 0 <= i < |diffs| => PointerDiff(Render(diffs[i].path), diffs[i].from, diffs[i].to))
  }

  lemma {:induction false} RenderOne(d: PathDiff)
    ensures RenderAll([d]) == [PointerDiff(Render(d.path), d.from, d.to)]
  {
  }

  /** Pushing one part and then the other is pushing both. */
  lemma {:induction false} PushBoth(out: seq<PointerDiff>, x: seq<PathDiff>, y: seq<PathDiff>)
    ensures out + RenderAll(x) + RenderAll(y) == out + RenderAll(x + y)
  {
    assert RenderAll(x + y) == RenderAll(x) + RenderAll(y);
  }

  lemma {:induction false} PushNothing(out: seq<PointerDiff>)
    ensures out + RenderAll([]) == out
  {
  }

  lemma {:induction false} RenderChild(path: seq<string>, token: string)
    ensures Render(path + [token]) == ChildPointer(Render(path), token)
  {
    assert (path + [token])[..|path|] == path;
  }

  /** `compare_values`: the loops over keys and indices push onto `out`. */
  method CompareValues(a: Json, b: Json, pointer: string, before: seq<PointerDiff>, ghost path: seq<string>)
    returns (out: seq<PointerDiff>)
    requires pointer == Render(path)
    ensures out == before + RenderAll(Diffs(a, b, path))
    decreases a, 2
  {
    out := before;
    PushNothing(out);
    if IsRedacted(a) || IsRedacted(b) {
    } else if a.Obj? && b.Obj? {
      out := CompareFields(a, b, pointer, out, path);
      out := CompareAdded(a, b, pointer, out, path);
      PushBoth(before, FieldDiffs(a, b, SortedKeys(a.fields.Keys), path),
               AddedDiffs(a, b, SortedKeys(b.fields.Keys), path));
    } else if a.Arr? && b.Arr? {
      out := CompareItems(a, b, pointer, out, path);
    } else if a != b {
      out := Push(out, pointer, Some(a), Some(b), path);
    }
  }

  method Push(before: seq<PointerDiff>, pointer: string, from: Option<Json>, to: Option<Json>, ghost path: seq<string>)
    returns (out: seq<PointerDiff>)
    requires pointer == Render(path)
    ensures out == before + RenderAll([PathDiff(path, from, to)])
  {
    RenderOne(PathDiff(path, from, to));
    out := before + [PointerDiff(pointer, from, to)];
  }

  method CompareFields(a: Json, b: Json, pointer: string, before: seq<PointerDiff>, ghost path: seq<string>)
    returns (out: seq<PointerDiff>)
    requires a.Obj? && b.Obj? && pointer == Render(path)
    ensures out == before + RenderAll(FieldDiffs(a, b, SortedKeys(a.fields.Keys), path))
    decreases a, 1
  {
    out := before;
    var keys := SortedKeys(a.fields.Keys);
    assert keys[0..] == keys;
    for i := 0 to |keys|
      invariant out + RenderAll(FieldDiffs(a, b, keys[i..], path)) == before + RenderAll(FieldDiffs(a, b, keys, path))
    {
      ghost var start, k := out, keys[i];
      assert keys[i] in keys && keys[i..][0] == keys[i] && keys[i..][1..] == keys[i + 1..];
      out := CompareField(a, b, keys[i], pointer, out, path);
      PushBoth(start, FieldDiff(a, b, k, path), FieldDiffs(a, b, keys[i + 1..], path));
    }
    PushNothing(out);
  }

  method CompareField(a: Json, b: Json, k: string, pointer: string, before: seq<PointerDiff>, ghost path: seq<string>)
    returns (out: seq<PointerDiff>)
    requires a.Obj? && b.Obj? && k in a.fields && pointer == Render(path)
    ensures out == before + RenderAll(FieldDiff(a, b, k, path))
    decreases a, 0
  {
    RenderChild(path, k);
    var child := ChildPointer(pointer, k);
    if k in b.fields {
      out := CompareValues(a.fields[k], b.fields[k], child, before, path + [k]);
    } else {
      out := Push(before, child, Some(a.fields[k]), None, path + [k]);
    }
  }

  method CompareAdded(a: Json, b: Json, pointer: string, before: seq<PointerDiff>, ghost path: seq<string>)
    returns (out: seq<PointerDiff>)
    requires a.Obj? && b.Obj? && pointer == Render(path)
    ensures out == before + RenderAll(AddedDiffs(a, b, SortedKeys(b.fields.Keys), path))
  {
    out := before;
    var keys := SortedKeys(b.fields.Keys);
    assert keys[0..] == keys;
    for i := 0 to |keys|
      invariant out + RenderAll(AddedDiffs(a, b, keys[i..], path)) == before + RenderAll(AddedDiffs(a, b, keys, path))
    {
      ghost var start, k := out, keys[i];
      assert keys[i] in keys && keys[i..][0] == keys[i] && keys[i..][1..] == keys[i + 1..];
      ghost var found := if k in a.fields then [] else [PathDiff(path + [k], None, Some(b.fields[k]))];
      if keys[i] in a.fields {
        PushNothing(out);
      } else {
        RenderChild(path, k);
        out := Push(out, ChildPointer(pointer, keys[i]), None, Some(b.fields[keys[i]]), path + [k]);
      }
      PushBoth(start, found, AddedDiffs(a, b, keys[i + 1..], path));
    }
    PushNothing(out);
  }

  method CompareItems(a: Json, b: Json, pointer: string, before: seq<PointerDiff>, ghost path: seq<string>)
    returns (out: seq<PointerDiff>)
    requires a.Arr? && b.Arr? && pointer == Render(path)
    ensures out == before + RenderAll(ItemDiffs(a, b, 0, path))
    decreases a, 1
  {
    out := before;
    for i := 0 to MaxLength(a, b)
      invariant out + RenderAll(ItemDiffs(a, b, i, path)) == before + RenderAll(ItemDiffs(a, b, 0, path))
    {
      ghost var start := out;
      out := CompareItem(a, b, i, pointer, out, path);
      PushBoth(start, ItemDiff(a, b, i, path), ItemDiffs(a, b, i + 1, path));
    }
    PushNothing(out);
  }

  method CompareItem(a: Json, b: Json, i: nat, pointer: string, before: seq<PointerDiff>, ghost path: seq<string>)
    returns (out: seq<PointerDiff>)
    requires a.Arr? && b.Arr? && i < MaxLength(a, b) && pointer == Render(path)
    ensures out == before + RenderAll(ItemDiff(a, b, i, path))
    decreases a, 0
  {
    RenderChild(path, Decimal(i));
    DecimalUnescaped(Decimal(i));
    var child := pointer + "/" + Decimal(i);
    if i < |a.items| && i < |b.items| {
      out := CompareValues(a.items[i], b.items[i], child, before, path + [Decimal(i)]);
    } else if i < |a.items| {
      out := Push(before, child, Some(a.items[i]), None, path + [Decimal(i)]);
    } else {
      out := Push(before, child, None, Some(b.items[i]), path + [Decimal(i)]);
    }
  }

  lemma {:induction false} DecimalUnescaped(token: string)
    requires forall i :: 0 <= i < |token| ==> IsDigit(token[i])
    ensures EscapeToken(token) == token
  {
    if token != "" {
      DecimalUnescaped(token[1..]);
      assert token == [token[0]] + token[1..];
    }
  }

  // ---------------------------------------------------------------- what the pointers point at

  /** The path leads to `from` in the one tree and to `to` in the other; where there is nothing, it leads nowhere. */
  predicate Sound(a: Json, b: Json, path: seq<string>, d: PathDiff) {
    path <= d.path && Walk(a, d.path[|path|..]) == d.from && Walk(b, d.path[|path|..]) == d.to
  }

  lemma {:induction false} SoundBelow(a: Json, b: Json, ca: Json, cb: Json, path: seq<string>, token: string,
                                      d: PathDiff)
    requires Descend(a, token) == Some(ca) && Descend(b, token) == Some(cb) && Sound(ca, cb, path + [token], d)
    ensures Sound(a, b, path, d) && |d.path| > |path| && d.path[|path|] == token
  {
    var rest := d.path[|path|..];
    assert d.path[|path|] == (path + [token])[|path|];
    assert rest[0] == token && rest[1..] == d.path[|path + [token]|..];
    assert path <= d.path;
  }

  lemma {:induction false} SoundHere(a: Json, b: Json, path: seq<string>, token: string, from: Option<Json>,
                                     to: Option<Json>)
    requires Descend(a, token) == from && Descend(b, token) == to
    ensures Sound(a, b, path, PathDiff(path + [token], from, to))
  {
    assert (path + [token])[|path|..] == [token];
  }

  lemma {:induction false} DiffsSound(a: Json, b: Json, path: seq<string>, d: PathDiff)
    requires d in Diffs(a, b, path)
    ensures Sound(a, b, path, d)
    decreases a, 1, 0
  {
    if a.Obj? && b.Obj? {
      var ka, kb := SortedKeys(a.fields.Keys), SortedKeys(b.fields.Keys);
      if d in FieldDiffs(a, b, ka, path) {
        var k := FieldDiffsSound(a, b, ka, path, d);
      } else {
        var k := AddedDiffsSound(a, b, kb, path, d);
      }
    } else if a.Arr? && b.Arr? {
      var i := ItemDiffsSound(a, b, 0, path, d);
    } else {
      assert path[|path|..] == [];
    }
  }

  lemma {:induction false} FieldDiffsSound(a: Json, b: Json, keys: seq<string>, path: seq<string>, d: PathDiff)
    returns (k: string)
    requires a.Obj? && b.Obj? && (forall k :: k in keys ==> k in a.fields) && d in FieldDiffs(a, b, keys, path)
    ensures Sound(a, b, path, d) && k in keys && |d.path| > |path| && d.path[|path|] == k
    decreases a, 0, |keys|
  {
    if d in FieldDiff(a, b, keys[0], path) {
      k := keys[0];
      if k in b.fields {
        DiffsSound(a.fields[k], b.fields[k], path + [k], d);
        SoundBelow(a, b, a.fields[k], b.fields[k], path, k, d);
      } else {
        SoundHere(a, b, path, k, Some(a.fields[k]), None);
      }
    } else {
      k := FieldDiffsSound(a, b, keys[1..], path, d);
    }
  }

  lemma {:induction false} AddedDiffsSound(a: Json, b: Json, keys: seq<string>, path: seq<string>, d: PathDiff)
    returns (k: string)
    requires a.Obj? && b.Obj? && (forall k :: k in keys ==> k in b.fields) && d in AddedDiffs(a, b, keys, path)
    ensures Sound(a, b, path, d) && k in keys && k !in a.fields && |d.path| > |path| && d.path[|path|] == k
  {
    if keys[0] !in a.fields && d == PathDiff(path + [keys[0]], None, Some(b.fields[keys[0]])) {
      k := keys[0];
      SoundHere(a, b, path, k, None, Some(b.fields[k]));
    } else {
      k := AddedDiffsSound(a, b, keys[1..], path, d);
    }
  }

  lemma {:induction false} ItemDiffsSound(a: Json, b: Json, i: nat, path: seq<string>, d: PathDiff) returns (j: nat)
    requires a.Arr? && b.Arr? && d in ItemDiffs(a, b, i, path)
    ensures Sound(a, b, path, d) && i <= j && |d.path| > |path| && d.path[|path|] == Decimal(j)
    decreases a, 0, MaxLength(a, b) - i
  {
    if d in ItemDiff(a, b, i, path) {
      j := i;
      IndexOfDecimal(i);
      if i < |a.items| && i < |b.items| {
        DiffsSound(a.items[i], b.items[i], path + [Decimal(i)], d);
        SoundBelow(a, b, a.items[i], b.items[i], path, Decimal(i), d);
      } else {
        SoundHere(a, b, path, Decimal(i), d.from, d.to);
      }
    } else {
      j := ItemDiffsSound(a, b, i + 1, path, d);
    }
  }

  /** Every reported pointer, evaluated, yields what the report says in either tree. */
  lemma {:induction false} PointersSound(a: Json, b: Json, d: PointerDiff)
    requires d in RenderAll(Diffs(a, b, []))
    ensures Evaluate(a, d.pointer) == d.from && Evaluate(b, d.pointer) == d.to
  {
    var diffs := Diffs(a, b, []);
    var i :| 0 <= i < |diffs| && d == PointerDiff(Render(diffs[i].path), diffs[i].from, diffs[i].to);
    DiffsSound(a, b, [], diffs[i]);
    PathRoundTrip(diffs[i].path);
    assert diffs[i].path[0..] == diffs[i].path;
  }

  // ---------------------------------------------------------------- each difference once

  predicate DistinctPaths(diffs: seq<PathDiff>) {
    forall i, j :: 0 <= i < j < |diffs| ==> diffs[i].path != diffs[j].path
  }

  lemma {:induction false} DistinctAppend(x: seq<PathDiff>, y: seq<PathDiff>)
    requires DistinctPaths(x) && DistinctPaths(y)
    requires forall d, e :: d in x && e in y ==> d.path != e.path
    ensures DistinctPaths(x + y)
  {
    forall i, j | 0 <= i < j < |x + y| ensures (x + y)[i].path != (x + y)[j].path {
      if i < |x| && |x| <= j { assert x[i] in x && y[j - |x|] in y; }
    }
  }

  lemma {:induction false} DiffsDistinct(a: Json, b: Json, path: seq<string>)
    ensures DistinctPaths(Diffs(a, b, path))
    decreases a, 1, 0
  {
    if a.Obj? && b.Obj? {
      var ka, kb := SortedKeys(a.fields.Keys), SortedKeys(b.fields.Keys);
      AscendingDistinct(ka);
      AscendingDistinct(kb);
      FieldDiffsDistinct(a, b, ka, path);
      AddedDiffsDistinct(a, b, kb, path);
      forall d, e | d in FieldDiffs(a, b, ka, path) && e in AddedDiffs(a, b, kb, path) ensures d.path != e.path {
        var k := FieldDiffsSound(a, b, ka, path, d);
        var l := AddedDiffsSound(a, b, kb, path, e);
      }
      DistinctAppend(FieldDiffs(a, b, ka, path), AddedDiffs(a, b, kb, path));
    } else if a.Arr? && b.Arr? {
      ItemDiffsDistinct(a, b, 0, path);
    }
  }

  lemma {:induction false} FieldDiffDistinct(a: Json, b: Json, k: string, path: seq<string>)
    requires a.Obj? && b.Obj? && k in a.fields
    ensures DistinctPaths(FieldDiff(a, b, k, path))
    ensures forall d :: d in FieldDiff(a, b, k, path) ==> |d.path| > |path| && d.path[|path|] == k
    decreases a, 0, 0
  {
    if k in b.fields { DiffsDistinct(a.fields[k], b.fields[k], path + [k]); }
    forall d | d in FieldDiff(a, b, k, path) ensures |d.path| > |path| && d.path[|path|] == k {
      assert FieldDiffs(a, b, [k], path) == FieldDiff(a, b, k, path);
      var l := FieldDiffsSound(a, b, [k], path, d);
    }
  }

  lemma {:induction false} FieldDiffsDistinct(a: Json, b: Json, keys: seq<string>, path: seq<string>)
    requires a.Obj? && b.Obj? && (forall k :: k in keys ==> k in a.fields)
    requires forall i, j :: 0 <= i < j < |keys| ==> keys[i] != keys[j]
    ensures DistinctPaths(FieldDiffs(a, b, keys, path))
    decreases a, 0, |keys|
  {
    if |keys| > 0 {
      FieldDiffDistinct(a, b, keys[0], path);
      FieldDiffsDistinct(a, b, keys[1..], path);
      forall d, e | d in FieldDiff(a, b, keys[0], path) && e in FieldDiffs(a, b, keys[1..], path)
        ensures d.path != e.path
      {
        var k := FieldDiffsSound(a, b, keys[1..], path, e);
      }
      DistinctAppend(FieldDiff(a, b, keys[0], path), FieldDiffs(a, b, keys[1..], path));
    }
  }

  lemma {:induction false} AddedDiffsDistinct(a: Json, b: Json, keys: seq<string>, path: seq<string>)
    requires a.Obj? && b.Obj? && (forall k :: k in keys ==> k in b.fields)
    requires forall i, j :: 0 <= i < j < |keys| ==> keys[i] != keys[j]
    ensures DistinctPaths(AddedDiffs(a, b, keys, path))
  {
    if |keys| > 0 {
      AddedDiffsDistinct(a, b, keys[1..], path);
      if keys[0] !in a.fields {
        forall e | e in AddedDiffs(a, b, keys[1..], path) ensures e.path != path + [keys[0]] {
          var k := AddedDiffsSound(a, b, keys[1..], path, e);
          assert (path + [keys[0]])[|path|] == keys[0];
        }
        DistinctAppend([PathDiff(path + [keys[0]], None, Some(b.fields[keys[0]]))], AddedDiffs(a, b, keys[1..], path));
      }
    }
  }

  lemma {:induction false} ItemDiffDistinct(a: Json, b: Json, i: nat, path: seq<string>)
    requires a.Arr? && b.Arr? && i < MaxLength(a, b)
    ensures DistinctPaths(ItemDiff(a, b, i, path))
    ensures forall d :: d in ItemDiff(a, b, i, path) ==> |d.path| > |path| && d.path[|path|] == Decimal(i)
    decreases a, 0, 0
  {
    var child := path + [Decimal(i)];
    assert child[|path|] == Decimal(i);
    if i < |a.items| && i < |b.items| {
      DiffsDistinct(a.items[i], b.items[i], child);
      forall d | d in ItemDiff(a, b, i, path) ensures |d.path| > |path| && d.path[|path|] == Decimal(i) {
        DiffsSound(a.items[i], b.items[i], child, d);
        assert child <= d.path;
      }
    }
  }

  lemma {:induction false} ItemDiffsDistinct(a: Json, b: Json, i: nat, path: seq<string>)
    requires a.Arr? && b.Arr?
    ensures DistinctPaths(ItemDiffs(a, b, i, path))
    decreases a, 0, MaxLength(a, b) - i
  {
    if i < MaxLength(a, b) {
      ItemDiffDistinct(a, b, i, path);
      ItemDiffsDistinct(a, b, i + 1, path);
      forall d, e | d in ItemDiff(a, b, i, path) && e in ItemDiffs(a, b, i + 1, path) ensures d.path != e.path {
        var j := ItemDiffsSound(a, b, i + 1, path, e);
        if Decimal(i) == Decimal(j) { DecimalInjective(i, j); }
      }
      DistinctAppend(ItemDiff(a, b, i, path), ItemDiffs(a, b, i + 1, path));
    }
  }

  /** No two reports carry the same pointer. */
  lemma {:induction false} PointersDistinct(a: Json, b: Json, i: nat, j: nat)
    requires i < j < |Diffs(a, b, [])|
    ensures RenderAll(Diffs(a, b, []))[i].pointer != RenderAll(Diffs(a, b, []))[j].pointer
  {
    var diffs := Diffs(a, b, []);
    DiffsDistinct(a, b, []);
    PathRoundTrip(diffs[i].path);
    PathRoundTrip(diffs[j].path);
  }

  // ---------------------------------------------------------------- silence

  /** The tree is the original with some values masked. */
  predicate MaskedFrom(original: Json, v: Json)
    decreases v
  {
    || IsRedacted(v)
    || (match v
        case Obj(fields) =>
          && original.Obj? && original.fields.Keys == fields.Keys
          && forall k :: k in fields ==> MaskedFrom(original.fields[k], fields[k])
        case Arr(items) =>
          original.Arr? && |original.items| == |items| && forall i :: 0 <= i < |items| ==>
            MaskedFrom(original.items[i], items[i])
        case _ => original == v)
  }

  /** Equal but for masked values. */
  predicate EqualModulo(a: Json, b: Json)
    decreases a
  {
    || IsRedacted(a) || IsRedacted(b)
    || (if a.Obj? && b.Obj? then
          a.fields.Keys == b.fields.Keys && forall k :: k in a.fields.Keys ==> EqualModulo(a.fields[k], b.fields[k])
        else if a.Arr? && b.Arr? then
          |a.items| == |b.items| && forall i :: 0 <= i < |a.items| ==> EqualModulo(a.items[i], b.items[i])
        else a == b)
  }

  /** What both trees may have been before masking. */
  function Merged(a: Json, b: Json): Json
    requires EqualModulo(a, b)
    decreases a
  {
    if IsRedacted(a) then b else if IsRedacted(b) then a
    else match a
      case Obj(fields) => Obj(map k | k in fields :: Merged(fields[k], b.fields[k]))
      case Arr(items) => Arr(seq(|items|, i requires 0 <= i < |items| => Merged(items[i], b.items[i])))
      case _ => a
  }

  lemma {:induction false} MaskedFromSelf(v: Json)
    ensures MaskedFrom(v, v)
  {
    match v
    case Obj(fields) => forall k | k in fields ensures MaskedFrom(fields[k], fields[k]) { MaskedFromSelf(fields[k]); }
    case Arr(items) => forall i | 0 <= i < |items| ensures MaskedFrom(items[i], items[i]) { MaskedFromSelf(items[i]); }
    case _ =>
  }

  lemma {:induction false} MergedMasks(a: Json, b: Json)
    requires EqualModulo(a, b)
    ensures MaskedFrom(Merged(a, b), a) && MaskedFrom(Merged(a, b), b)
    decreases a
  {
    if IsRedacted(a) {
      MaskedFromSelf(b);
    } else if IsRedacted(b) {
      MaskedFromSelf(a);
    } else if a.Obj? {
      forall k | k in a.fields
        ensures MaskedFrom(Merged(a, b).fields[k], a.fields[k]) && MaskedFrom(Merged(a, b).fields[k], b.fields[k])
      {
        MergedMasks(a.fields[k], b.fields[k]);
      }
    } else if a.Arr? {
      forall i | 0 <= i < |a.items|
        ensures MaskedFrom(Merged(a, b).items[i], a.items[i]) && MaskedFrom(Merged(a, b).items[i], b.items[i])
      {
        MergedMasks(a.items[i], b.items[i]);
      }
    }
  }

  lemma {:induction false} SameOriginal(original: Json, a: Json, b: Json)
    requires MaskedFrom(original, a) && MaskedFrom(original, b)
    ensures EqualModulo(a, b)
    decreases a
  {
    if !IsRedacted(a) && !IsRedacted(b) {
      if a.Obj? && b.Obj? {
        forall k | k in a.fields.Keys ensures EqualModulo(a.fields[k], b.fields[k]) {
          SameOriginal(original.fields[k], a.fields[k], b.fields[k]);
        }
      } else if a.Arr? && b.Arr? {
        forall i | 0 <= i < |a.items| ensures EqualModulo(a.items[i], b.items[i]) {
          SameOriginal(original.items[i], a.items[i], b.items[i]);
        }
      }
    }
  }

  lemma {:induction false} NoDiffsIff(a: Json, b: Json, path: seq<string>)
    ensures |Diffs(a, b, path)| == 0 <==> EqualModulo(a, b)
    decreases a, 1, 0
  {
    if !IsRedacted(a) && !IsRedacted(b) {
      if a.Obj? && b.Obj? {
        NoFieldDiffsIff(a, b, SortedKeys(a.fields.Keys), path);
        NoAddedDiffsIff(a, b, SortedKeys(b.fields.Keys), path);
        SameKeysIff(a.fields.Keys, b.fields.Keys);
      } else if a.Arr? && b.Arr? {
        NoItemDiffsIff(a, b, 0, path);
        if |a.items| != |b.items| { assert !SameItem(a, b, MaxLength(a, b) - 1); }
        assert forall j :: 0 <= j < MaxLength(a, b) && |a.items| == |b.items| ==>
          (SameItem(a, b, j) <==> EqualModulo(a.items[j], b.items[j]));
      }
    }
  }

  lemma {:induction false} SameKeysIff(a: set<string>, b: set<string>)
    ensures a == b <==> (forall k :: k in SortedKeys(a) ==> k in b) && (forall k :: k in SortedKeys(b) ==> k in a)
  {
  }

  lemma {:induction false} NoFieldDiffsIff(a: Json, b: Json, keys: seq<string>, path: seq<string>)
    requires a.Obj? && b.Obj? && forall k :: k in keys ==> k in a.fields
    ensures |FieldDiffs(a, b, keys, path)| == 0 <==> forall k :: k in keys ==>
        k in b.fields && EqualModulo(a.fields[k], b.fields[k])
    decreases a, 0, |keys|
  {
    if |keys| > 0 {
      if keys[0] in b.fields { NoDiffsIff(a.fields[keys[0]], b.fields[keys[0]], path + [keys[0]]); }
      NoFieldDiffsIff(a, b, keys[1..], path);
      FirstAndRest(keys, k => k in a.fields && k in b.fields && EqualModulo(a.fields[k], b.fields[k]));
    }
  }

  lemma {:induction false} FirstAndRest(keys: seq<string>, good: string -> bool)
    requires |keys| > 0
    ensures (forall k :: k in keys ==> good(k)) <==> good(keys[0]) && forall k :: k in keys[1..] ==> good(k)
  {
    assert keys == [keys[0]] + keys[1..];
  }

  lemma {:induction false} NoAddedDiffsIff(a: Json, b: Json, keys: seq<string>, path: seq<string>)
    requires a.Obj? && b.Obj? && forall k :: k in keys ==> k in b.fields
    ensures |AddedDiffs(a, b, keys, path)| == 0 <==> forall k :: k in keys ==> k in a.fields
  {
    if |keys| > 0 {
      NoAddedDiffsIff(a, b, keys[1..], path);
      assert keys == [keys[0]] + keys[1..];
    }
  }

  predicate SameItem(a: Json, b: Json, j: nat)
    requires a.Arr? && b.Arr?
  {
    j < |a.items| && j < |b.items| && EqualModulo(a.items[j], b.items[j])
  }

  lemma {:induction false} NoItemDiffsIff(a: Json, b: Json, i: nat, path: seq<string>)
    requires a.Arr? && b.Arr?
    ensures |ItemDiffs(a, b, i, path)| == 0 <==> forall j :: i <= j < MaxLength(a, b) ==> SameItem(a, b, j)
    decreases a, 0, MaxLength(a, b) - i
  {
    if i < MaxLength(a, b) {
      if i < |a.items| && i < |b.items| { NoDiffsIff(a.items[i], b.items[i], path + [Decimal(i)]); }
      assert |ItemDiff(a, b, i, path)| == 0 <==> SameItem(a, b, i);
      NoItemDiffsIff(a, b, i + 1, path);
    }
  }

  /** Nothing is reported exactly when one original, masked in one way and another, yields both trees. */
  lemma {:induction false} SilentIff(a: Json, b: Json)
    ensures |RenderAll(Diffs(a, b, []))| == 0 <==> exists original :: MaskedFrom(original, a) && MaskedFrom(original, b)
  {
    NoDiffsIff(a, b, []);
    if EqualModulo(a, b) {
      MergedMasks(a, b);
      assert MaskedFrom(Merged(a, b), a) && MaskedFrom(Merged(a, b), b);
    } else {
      forall original | MaskedFrom(original, a) ensures !MaskedFrom(original, b) {
        if MaskedFrom(original, b) { SameOriginal(original, a, b); }
      }
    }
  }
}
