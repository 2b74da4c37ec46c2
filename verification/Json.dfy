/** JSON values as `serde_json` holds them in this workspace, with the compact text it prints.

    Objects are maps: the workspace's `serde_json::Map` is a `BTreeMap`, so a value has no key
    order of its own and every traversal and every printed object goes in ascending key order. */
module Json {

  datatype Option<+T> = None | Some(value: T)

  datatype Result<+T, +E> = Ok(value: T) | Err(error: E)

  /** A number is an integer or a float, and a float is what it prints: two floats are the same value exactly when
   *  they print the same. Only 0.0 and -0.0, equal to `serde_json`, are thereby told apart. */
  datatype Number = Int(i: int) | Float(text: FloatText)

  type FloatText = s: string | IsFloatText(s) witness "0.5"

  datatype Json =
    | Null
    | Bool(b: bool)
    | Num(n: Number)
    | Str(s: string)
    | Arr(items: seq<Json>)
    | Obj(fields: map<string, Json>)
  {
    /** `Value::get` with a string key: absent unless this is an object holding the key. */
    function Get(key: string): Option<Json> {
      if Obj? && key in fields then Some(fields[key]) else None
    }

    function AsStr(): Option<string> {
      if Str? then Some(s) else None
    }

    /** `Value::as_i64`: integers outside the 64-bit range and floats have none. */
    function AsI64(): Option<int> {
      if Num? && n.Int? && -0x8000_0000_0000_0000 <= n.i < 0x8000_0000_0000_0000 then Some(n.i) else None
    }
  }

  /** `payload.get(key).and_then(Value::as_str)`. */
  function GetStr(v: Json, key: string): Option<string> {
    match v.Get(key) case Some(child) => child.AsStr() case None => None
  }

  /** One more step down a path that may already have ended. */
  function Child(v: Option<Json>, key: string): Option<Json> {
    match v case Some(parent) => parent.Get(key) case None => None
  }

  // ---------------------------------------------------------------- key order

  /** Strict lexicographic order; on UTF-8 text it is also the byte order `BTreeMap` uses. */
  predicate Before(a: string, b: string) {
    b != [] && (a == [] || a[0] < b[0] || (a[0] == b[0] && Before(a[1..], b[1..])))
  }

  lemma {:induction false} BeforeTotal(a: string, b: string)
    ensures Before(a, b) || a == b || Before(b, a)
    ensures !(Before(a, b) && Before(b, a))
    ensures !Before(a, a)
  {
    if a != [] && b != [] {
      BeforeTotal(a[1..], b[1..]);
      if a[0] == b[0] && a[1..] == b[1..] {
        assert a == [a[0]] + a[1..] == [b[0]] + b[1..] == b;
      }
    }
    if a != [] { BeforeTotal(a[1..], a[1..]); }
  }

  lemma {:induction false} BeforeTransitive(a: string, b: string, c: string)
    requires Before(a, b) && Before(b, c)
    ensures Before(a, c)
  {
    if a != [] && a[0] == b[0] && b[0] == c[0] { BeforeTransitive(a[1..], b[1..], c[1..]); }
  }

  predicate IsLeast(k: string, keys: set<string>) {
    k in keys && forall o :: o in keys && o != k ==> Before(k, o)
  }

  lemma {:induction false} LeastExists(keys: set<string>)
    requires keys != {}
    ensures exists k :: IsLeast(k, keys)
    decreases |keys|
  {
    var k :| k in keys;
    if keys == {k} {
      assert IsLeast(k, keys);
    } else {
      LeastExists(keys - {k});
      var m :| IsLeast(m, keys - {k});
      BeforeTotal(k, m);
      if Before(k, m) {
        forall o | o in keys && o != k ensures Before(k, o) {
          if o != m { BeforeTransitive(k, m, o); }
        }
        assert IsLeast(k, keys);
      } else {
        assert IsLeast(m, keys);
      }
    }
  }

  lemma {:induction false} LeastUnique(a: string, b: string, keys: set<string>)
    requires IsLeast(a, keys) && IsLeast(b, keys)
    ensures a == b
  {
    BeforeTotal(a, b);
  }

  function Least(keys: set<string>): (k: string)
    requires keys != {}
    ensures IsLeast(k, keys)
  {
    LeastExists(keys);
    assert forall a, b :: IsLeast(a, keys) && IsLeast(b, keys) ==> a == b by {
      forall a, b | IsLeast(a, keys) && IsLeast(b, keys) ensures a == b { LeastUnique(a, b, keys); }
    }
    var k :| k in keys && IsLeast(k, keys); k
  }

  predicate Ascending(keys: seq<string>) {
    forall i, j :: 0 <= i < j < |keys| ==> Before(keys[i], keys[j])
  }

  /** The keys of an object in the order a `BTreeMap` yields them. */
  function SortedKeys(keys: set<string>): (r: seq<string>)
    ensures Ascending(r)
    ensures forall k :: k in r <==> k in keys
    ensures |r| == |keys|
    decreases |keys|
  {
    if keys == {} then [] else
    var k := Least(keys);
    var rest := SortedKeys(keys - {k});
    assert forall i :: 0 <= i < |rest| ==> rest[i] in rest;
    [k] + rest
  }

  lemma {:induction false} AscendingDistinct(keys: seq<string>)
    requires Ascending(keys)
    ensures forall i, j :: 0 <= i < j < |keys| ==> keys[i] != keys[j]
  {
    forall i, j | 0 <= i < j < |keys| ensures keys[i] != keys[j] { BeforeTotal(keys[i], keys[j]); }
  }

  lemma {:induction false} AscendingHeadLeast(keys: seq<string>, k: string)
    requires Ascending(keys) && k in keys
    ensures keys[0] == k || Before(keys[0], k)
  {
    var i :| 0 <= i < |keys| && keys[i] == k;
  }

  lemma {:induction false} AscendingTail(keys: seq<string>, k: string)
    requires Ascending(keys) && keys != []
    ensures k in keys[1..] <==> k in keys && k != keys[0]
  {
    AscendingDistinct(keys);
    assert keys == [keys[0]] + keys[1..];
  }

  lemma {:induction false} AscendingUnique(a: seq<string>, b: seq<string>)
    requires Ascending(a) && Ascending(b)
    requires forall k :: k in a <==> k in b
    ensures a == b
  {
    assert (a == [] || a[0] in b) && (b == [] || b[0] in a);
    if a != [] {
      AscendingHeadLeast(a, b[0]);
      AscendingHeadLeast(b, a[0]);
      BeforeTotal(a[0], b[0]);
      forall k ensures k in a[1..] <==> k in b[1..] { AscendingTail(a, k); AscendingTail(b, k); }
      AscendingUnique(a[1..], b[1..]);
      assert a == [a[0]] + a[1..] && b == [b[0]] + b[1..];
    }
  }

  /** An ascending list is the sorted form of its own elements: sorting and deduplicating again changes nothing. */
  lemma {:induction false} SortedKeysFixpoint(keys: seq<string>)
    requires Ascending(keys)
    ensures SortedKeys(set k | k in keys) == keys
  {
    AscendingUnique(SortedKeys(set k | k in keys), keys);
  }

  // ---------------------------------------------------------------- text

  predicate IsDigit(c: char) { '0' <= c <= '9' }

  predicate IsNumberChar(c: char) { IsDigit(c) || c in "+-.eE" }

  /** What `serde_json` prints for a float: number characters with a point or an exponent among them. */
  predicate IsFloatText(s: string) {
    && s != []
    && (forall i :: 0 <= i < |s| ==> IsNumberChar(s[i]))
    && ('.' in s || 'e' in s || 'E' in s)
  }

  function Digit(d: nat): (c: char)
    requires d < 10
    ensures IsDigit(c) && c as int == d + '0' as int
  {
    (d + '0' as int) as char
  }

  function Decimal(n: nat): (s: string)
    ensures s != [] && forall i :: 0 <= i < |s| ==> IsDigit(s[i])
  {
    if n < 10 then [Digit(n)] else Decimal(n / 10) + [Digit(n % 10)]
  }

  /** Decimal text names its number. */
  lemma {:induction false} DecimalInjective(a: nat, b: nat)
    requires Decimal(a) == Decimal(b)
    ensures a == b
  {
    var s := Decimal(a);
    if a < 10 && b < 10 {
      assert s[0] == Digit(a) == Digit(b);
    } else if a >= 10 && b >= 10 {
      var p, q := Decimal(a / 10), Decimal(b / 10);
      assert s == p + [Digit(a % 10)] == q + [Digit(b % 10)];
      assert |p| == |q| && p == s[..|p|] == q;
      assert s[|p|] == Digit(a % 10) == Digit(b % 10);
      DecimalInjective(a / 10, b / 10);
    }
  }

  function NumberText(n: Number): (s: string)
    ensures s != [] && forall i :: 0 <= i < |s| ==> IsNumberChar(s[i])
  {
    match n
    case Int(i) => if i < 0 then "-" + Decimal(-i) else Decimal(i)
    case Float(text) => text
  }

  lemma {:induction false} NumberTextInjective(a: Number, b: Number)
    requires NumberText(a) == NumberText(b)
    ensures a == b
  {
    var s := NumberText(a);
    match (a, b)
    case (Int(i), Int(j)) =>
      SignText(i);
      SignText(j);
      if i < 0 {
        assert Decimal(-i) == s[1..] == Decimal(-j);
        DecimalInjective(-i, -j);
      } else {
        DecimalInjective(i, j);
      }
    case (Int(i), Float(t)) => IntHasNoPoint(i);
    case (Float(t), Int(i)) => IntHasNoPoint(i);
    case (Float(_), Float(_)) =>
  }

  lemma {:induction false} SignText(i: int)
    ensures NumberText(Int(i))[0] == '-' <==> i < 0
  {
  }

  lemma {:induction false} IntHasNoPoint(i: int)
    ensures forall k :: 0 <= k < |NumberText(Int(i))| ==> NumberText(Int(i))[k] !in ".eE"
  {
  }

  function HexDigit(d: nat): (c: char)
    requires d < 16
  {
    if d < 10 then Digit(d) else (d - 10 + 'a' as int) as char
  }

  const QUOTE := '\U{22}'
  const BACKSLASH := '\U{5C}'

  /** The letter of a two-character escape. */
  function EscapeLetter(c: char): Option<char> {
    if c == QUOTE || c == BACKSLASH then Some(c)
    else match c as int
      case 8 => Some('b') case 12 => Some('f') case 10 => Some('n') case 13 => Some('r') case 9 => Some('t')
      case _ => None
  }

  /** One character as it stands inside a JSON string literal. */
  function EscapeChar(c: char): (s: string)
    ensures s != [] && s[0] != QUOTE
  {
    match EscapeLetter(c)
    case Some(letter) => [BACKSLASH, letter]
    case None =>
      if c as int < 0x20 then [BACKSLASH, 'u', '0', '0', HexDigit(c as int / 16), HexDigit(c as int % 16)] else [c]
  }

  function Escape(s: string): string {
    if s == [] then "" else EscapeChar(s[0]) + Escape(s[1..])
  }

  function Quoted(s: string): string { "\"" + Escape(s) + "\"" }

  /** `Value::to_string`: compact text, object keys ascending. */
  function Text(v: Json): (t: string)
    decreases v
  {
    match v
    case Null => "null"
    case Bool(b) => if b then "true" else "false"
    case Num(n) => NumberText(n)
    case Str(s) => Quoted(s)
    case Arr(items) => "[" + ItemsText(v, 0) + "]"
    case Obj(fields) => "{" + FieldsText(v, SortedKeys(fields.Keys)) + "}"
  }

  function ItemsText(v: Json, from: nat): string
    requires v.Arr? && from <= |v.items|
    decreases v, |v.items| - from
  {
    if from == |v.items| then ""
    else Text(v.items[from]) + (if from + 1 == |v.items| then "" else "," + ItemsText(v, from + 1))
  }

  function FieldsText(v: Json, keys: seq<string>): string
    requires v.Obj? && forall k :: k in keys ==> k in v.fields
    decreases v, |keys|
  {
    if keys == [] then ""
    else Quoted(keys[0]) + ":" + Text(v.fields[keys[0]]) +
         (if |keys| == 1 then "" else "," + FieldsText(v, keys[1..]))
  }

  // ---------------------------------------------------------------- text is injective

  /** A text that may follow a number without being read as part of it. */
  predicate Ends(x: string) { x == [] || !IsNumberChar(x[0]) }

  lemma {:induction false} SameLength(p: string, x: string, q: string, y: string)
    requires p + x == q + y && |p| == |q|
    ensures p == q && x == y
  {
    assert p == (p + x)[..|p|] && q == (q + y)[..|q|];
    assert x == (p + x)[|p|..] && y == (q + y)[|q|..];
  }

  lemma {:induction false} Assoc(p: string, q: string, x: string)
    ensures (p + q) + x == p + (q + x)
  {
  }

  lemma {:induction false} Wrap(l: string, i: string, r: string, x: string)
    ensures (l + i + r) + x == l + (i + (r + x))
  {
  }

  lemma {:induction false} Overhang(p: string, x: string, q: string, y: string)
    requires p + x == q + y && |p| < |q|
    ensures x != [] && x[0] == q[|p|]
  {
    assert x[0] == (p + x)[|p|] == (q + y)[|p|];
  }

  lemma {:induction false} NumberMunch(p: string, x: string, q: string, y: string)
    requires p + x == q + y && Ends(x) && Ends(y)
    requires forall i :: 0 <= i < |p| ==> IsNumberChar(p[i])
    requires forall i :: 0 <= i < |q| ==> IsNumberChar(q[i])
    ensures p == q && x == y
  {
    if |p| < |q| { Overhang(p, x, q, y); }
    if |q| < |p| { Overhang(q, y, p, x); }
    SameLength(p, x, q, y);
  }

  lemma {:induction false} EscapeCharPrefix(c: char, u: string, d: char, v: string)
    requires EscapeChar(c) + u == EscapeChar(d) + v
    ensures c == d && u == v
  {
    var w := EscapeChar(c) + u;
    var p, q := EscapeChar(c), EscapeChar(d);
    assert forall i :: 0 <= i < |p| ==> w[i] == p[i];
    assert forall i :: 0 <= i < |q| ==> w[i] == q[i];
    assert w[0] == p[0] == q[0];
    if |p| > 1 {
      assert |q| > 1 && w[1] == p[1] == q[1];
      if |p| == 6 { assert |q| == 6 && p[4] == q[4] && p[5] == q[5]; }
    }
    SameLength(p, u, q, v);
  }

  lemma {:induction false} EscapePrefix(s: string, x: string, t: string, y: string)
    requires Escape(s) + ("\"" + x) == Escape(t) + ("\"" + y)
    ensures s == t && x == y
  {
    var w := Escape(s) + ("\"" + x);
    assert if s == [] then w[0] == QUOTE else w[0] == EscapeChar(s[0])[0];
    assert if t == [] then w[0] == QUOTE else w[0] == EscapeChar(t[0])[0];
    if s == [] {
      SameLength(Escape(s), "\"" + x, Escape(t), "\"" + y);
      SameLength("\"", x, "\"", y);
    } else {
      var u, v := Escape(s[1..]) + ("\"" + x), Escape(t[1..]) + ("\"" + y);
      Assoc(EscapeChar(s[0]), Escape(s[1..]), "\"" + x);
      Assoc(EscapeChar(t[0]), Escape(t[1..]), "\"" + y);
      EscapeCharPrefix(s[0], u, t[0], v);
      EscapePrefix(s[1..], x, t[1..], y);
      assert s == [s[0]] + s[1..] && t == [t[0]] + t[1..];
    }
  }

  lemma {:induction false} QuotedPrefix(s: string, x: string, t: string, y: string)
    requires Quoted(s) + x == Quoted(t) + y
    ensures s == t && x == y
  {
    Wrap("\"", Escape(s), "\"", x);
    Wrap("\"", Escape(t), "\"", y);
    SameLength("\"", Escape(s) + ("\"" + x), "\"", Escape(t) + ("\"" + y));
    EscapePrefix(s, x, t, y);
  }

  /** The first character of a text names the kind of the value. */
  function Kind(v: Json): nat {
    match v
    case Null => 0
    case Bool(b) => if b then 1 else 2
    case Num(_) => 3
    case Str(_) => 4
    case Arr(_) => 5
    case Obj(_) => 6
  }

  lemma {:induction false} TextStart(v: Json)
    ensures Text(v) != []
    ensures var c := Text(v)[0]; match Kind(v)
      case 0 => c == 'n' case 1 => c == 't' case 2 => c == 'f' case 3 => IsNumberChar(c)
      case 4 => c == QUOTE case 5 => c == '[' case _ => c == '{'
  {
  }

  lemma {:induction false} SameKind(a: Json, x: string, b: Json, y: string)
    requires Text(a) + x == Text(b) + y
    ensures Kind(a) == Kind(b)
  {
    TextStart(a);
    TextStart(b);
    assert (Text(a) + x)[0] == Text(a)[0] && (Text(b) + y)[0] == Text(b)[0];
  }

  /** A value can be read off the front of any text that starts with it. */
  lemma {:induction false} TextPrefix(a: Json, x: string, b: Json, y: string)
    requires Text(a) + x == Text(b) + y && Ends(x) && Ends(y)
    ensures a == b && x == y
    decreases a, 1
  {
    SameKind(a, x, b, y);
    match a
    case Null => SameLength(Text(a), x, Text(b), y);
    case Bool(_) => SameLength(Text(a), x, Text(b), y);
    case Num(n) =>
      NumberMunch(NumberText(n), x, NumberText(b.n), y);
      NumberTextInjective(n, b.n);
    case Str(s) => QuotedPrefix(s, x, b.s, y);
    case Arr(_) => ArrayPrefix(a, x, b, y);
    case Obj(_) => ObjectPrefix(a, x, b, y);
  }

  lemma {:induction false} ArrayPrefix(a: Json, x: string, b: Json, y: string)
    requires a.Arr? && b.Arr? && Text(a) + x == Text(b) + y
    ensures a == b && x == y
    decreases a, 0
  {
    Wrap("[", ItemsText(a, 0), "]", x);
    Wrap("[", ItemsText(b, 0), "]", y);
    SameLength("[", ItemsText(a, 0) + ("]" + x), "[", ItemsText(b, 0) + ("]" + y));
    ItemsPrefix(a, 0, x, b, 0, y);
  }

  lemma {:induction false} ObjectPrefix(a: Json, x: string, b: Json, y: string)
    requires a.Obj? && b.Obj? && Text(a) + x == Text(b) + y
    ensures a == b && x == y
    decreases a, 0
  {
    var ka, kb := SortedKeys(a.fields.Keys), SortedKeys(b.fields.Keys);
    Wrap("{", FieldsText(a, ka), "}", x);
    Wrap("{", FieldsText(b, kb), "}", y);
    SameLength("{", FieldsText(a, ka) + ("}" + x), "{", FieldsText(b, kb) + ("}" + y));
    FieldsPrefix(a, ka, x, b, kb, y);
    assert forall k :: k in a.fields.Keys <==> k in ka;
    assert forall k :: k in b.fields.Keys <==> k in kb;
    assert a.fields.Keys == b.fields.Keys;
    assert a.fields == b.fields;
  }

  /** What follows an element: the closing bracket, or a comma and the other elements. */
  function After(last: bool, more: string, close: string): string {
    if last then close else "," + more + close
  }

  lemma {:induction false} AfterInjective(la: bool, ma: string, lb: bool, mb: string, c: string, x: string, y: string)
    requires c == "]" || c == "}"
    requires After(la, ma, c) + x == After(lb, mb, c) + y
    ensures la == lb
    ensures la ==> x == y
    ensures !la ==> ma + (c + x) == mb + (c + y)
  {
    var w := After(la, ma, c) + x;
    assert w[0] == After(la, ma, c)[0] == After(lb, mb, c)[0];
    if la {
      SameLength(c, x, c, y);
    } else {
      Wrap(",", ma, c, x);
      Wrap(",", mb, c, y);
      SameLength(",", ma + (c + x), ",", mb + (c + y));
    }
  }

  function ItemsTail(a: Json, i: nat, x: string): string
    requires a.Arr? && i < |a.items|
  {
    After(i + 1 == |a.items|, if i + 1 == |a.items| then "" else ItemsText(a, i + 1), "]") + x
  }

  lemma {:induction false} ItemsStep(a: Json, i: nat, x: string)
    requires a.Arr? && i <= |a.items|
    ensures (ItemsText(a, i) + ("]" + x))[0] == ']' <==> i == |a.items|
    ensures i < |a.items| ==>
      ItemsText(a, i) + ("]" + x) == Text(a.items[i]) + ItemsTail(a, i, x) && Ends(ItemsTail(a, i, x))
  {
    if i < |a.items| {
      TextStart(a.items[i]);
      var t := Text(a.items[i]);
      if i + 1 == |a.items| {
        assert ItemsText(a, i) == t + "" == t;
      } else {
        var more := ItemsText(a, i + 1);
        assert ItemsText(a, i) == t + ("," + more);
        Assoc(t, "," + more, "]" + x);
        Assoc("," + more, "]", x);
      }
    }
  }

  lemma {:induction false} ItemsClosed(a: Json, i: nat, x: string)
    requires a.Arr? && i <= |a.items|
    ensures (ItemsText(a, i) + ("]" + x))[0] == ']' <==> i == |a.items|
  {
    ItemsStep(a, i, x);
  }

  lemma {:induction false} ItemsEnd(a: Json, x: string, b: Json, j: nat, y: string)
    requires a.Arr? && b.Arr? && j <= |b.items|
    requires ItemsText(a, |a.items|) + ("]" + x) == ItemsText(b, j) + ("]" + y)
    ensures j == |b.items| && x == y
  {
    ItemsClosed(a, |a.items|, x);
    ItemsClosed(b, j, y);
    assert "" + ("]" + x) == "]" + x && "" + ("]" + y) == "]" + y;
    SameLength("]", x, "]", y);
  }

  lemma {:induction false} ItemsPrefix(a: Json, i: nat, x: string, b: Json, j: nat, y: string)
    requires a.Arr? && b.Arr? && i <= |a.items| && j <= |b.items|
    requires ItemsText(a, i) + ("]" + x) == ItemsText(b, j) + ("]" + y)
    ensures |a.items| - i == |b.items| - j && x == y
    ensures forall k :: i <= k < |a.items| ==> a.items[k] == b.items[k - i + j]
    decreases a, 0, |a.items| - i
  {
    if i == |a.items| {
      ItemsEnd(a, x, b, j, y);
    } else {
      ItemsClosed(a, i, x);
      ItemsClosed(b, j, y);
      ItemHead(a, i, x, b, j, y);
      if i + 1 < |a.items| { ItemsPrefix(a, i + 1, x, b, j + 1, y); }
    }
  }

  lemma {:induction false} ItemHead(a: Json, i: nat, x: string, b: Json, j: nat, y: string)
    requires a.Arr? && b.Arr? && i < |a.items| && j < |b.items|
    requires ItemsText(a, i) + ("]" + x) == ItemsText(b, j) + ("]" + y)
    ensures a.items[i] == b.items[j]
    ensures if i + 1 == |a.items| then j + 1 == |b.items| && x == y
            else j + 1 < |b.items| && ItemsText(a, i + 1) + ("]" + x) == ItemsText(b, j + 1) + ("]" + y)
    decreases a, 0, 0
  {
    var la, lb := i + 1 == |a.items|, j + 1 == |b.items|;
    ItemsStep(a, i, x);
    ItemsStep(b, j, y);
    TextPrefix(a.items[i], ItemsTail(a, i, x), b.items[j], ItemsTail(b, j, y));
    AfterInjective(la, if la then "" else ItemsText(a, i + 1), lb, if lb then "" else ItemsText(b, j + 1), "]", x, y);
  }

  function FieldsTail(a: Json, keys: seq<string>, x: string): string
    requires a.Obj? && keys != [] && forall k :: k in keys ==> k in a.fields
  {
    After(|keys| == 1, if |keys| == 1 then "" else FieldsText(a, keys[1..]), "}") + x
  }

  lemma {:induction false} FieldsStep(a: Json, keys: seq<string>, x: string)
    requires a.Obj? && forall k :: k in keys ==> k in a.fields
    ensures (FieldsText(a, keys) + ("}" + x))[0] == '}' <==> keys == []
    ensures keys != [] ==>
      FieldsText(a, keys) + ("}" + x) == Quoted(keys[0]) + (":" + (Text(a.fields[keys[0]]) + FieldsTail(a, keys, x)))
      && Ends(FieldsTail(a, keys, x))
  {
    if keys != [] {
      var q, t := Quoted(keys[0]), Text(a.fields[keys[0]]);
      var more := if |keys| == 1 then "" else "," + FieldsText(a, keys[1..]);
      Assoc(more, "}", x);
      Assoc(q + ":" + t, more, "}" + x);
      Wrap(q, ":", t, FieldsTail(a, keys, x));
    }
  }

  lemma {:induction false} FieldsClosed(a: Json, keys: seq<string>, x: string)
    requires a.Obj? && forall k :: k in keys ==> k in a.fields
    ensures (FieldsText(a, keys) + ("}" + x))[0] == '}' <==> keys == []
  {
    FieldsStep(a, keys, x);
  }

  lemma {:induction false} FieldsPrefix(a: Json, ka: seq<string>, x: string, b: Json, kb: seq<string>, y: string)
    requires a.Obj? && b.Obj?
    requires forall k :: k in ka ==> k in a.fields
    requires forall k :: k in kb ==> k in b.fields
    requires FieldsText(a, ka) + ("}" + x) == FieldsText(b, kb) + ("}" + y)
    ensures ka == kb && x == y
    ensures forall k :: k in ka ==> a.fields[k] == b.fields[k]
    decreases a, 0, |ka|
  {
    FieldsClosed(a, ka, x);
    FieldsClosed(b, kb, y);
    if ka == [] {
      assert "" + ("}" + x) == "}" + x && "" + ("}" + y) == "}" + y;
      SameLength("}", x, "}", y);
    } else {
      FieldHead(a, ka, x, b, kb, y);
      if |ka| > 1 { FieldsPrefix(a, ka[1..], x, b, kb[1..], y); }
      assert ka == [ka[0]] + ka[1..] && kb == [kb[0]] + kb[1..];
    }
  }

  lemma {:induction false} FieldHead(a: Json, ka: seq<string>, x: string, b: Json, kb: seq<string>, y: string)
    requires a.Obj? && b.Obj? && ka != [] && kb != []
    requires forall k :: k in ka ==> k in a.fields
    requires forall k :: k in kb ==> k in b.fields
    requires FieldsText(a, ka) + ("}" + x) == FieldsText(b, kb) + ("}" + y)
    ensures ka[0] == kb[0] && a.fields[ka[0]] == b.fields[kb[0]]
    ensures if |ka| == 1 then |kb| == 1 && x == y
            else |kb| > 1 && FieldsText(a, ka[1..]) + ("}" + x) == FieldsText(b, kb[1..]) + ("}" + y)
    decreases a, 0, 0
  {
    var va, vb := a.fields[ka[0]], b.fields[kb[0]];
    var u, v := FieldsTail(a, ka, x), FieldsTail(b, kb, y);
    FieldsStep(a, ka, x);
    FieldsStep(b, kb, y);
    QuotedPrefix(ka[0], ":" + (Text(va) + u), kb[0], ":" + (Text(vb) + v));
    SameLength(":", Text(va) + u, ":", Text(vb) + v);
    TextPrefix(va, u, vb, v);
    var la, lb := |ka| == 1, |kb| == 1;
    AfterInjective(la, if la then "" else FieldsText(a, ka[1..]), lb, if lb then "" else FieldsText(b, kb[1..]), "}", x,
                   y);
  }

  /** Two values print the same text exactly when they are the same value. */
  lemma {:induction false} TextInjective(a: Json, b: Json)
    ensures Text(a) == Text(b) <==> a == b
  {
    if Text(a) == Text(b) {
      assert Text(a) + "" == Text(b) + "";
      TextPrefix(a, "", b, "");
    }
  }

  /** Length in UTF-8 bytes, which is what the source's `str::len` counts. */
  function Utf8Len(s: string): nat {
    if s == [] then 0 else Utf8CharLen(s[0]) + Utf8Len(s[1..])
  }

  function Utf8CharLen(c: char): nat {
    if c as int < 0x80 then 1 else if c as int < 0x800 then 2 else if c as int < 0x1_0000 then 3 else 4
  }
}
