/** The stable sort by a numeric key. */
module Sorting {
  predicate InOrder<T>(s: seq<T>, key: T -> int) { forall i, j :: 0 <= i < j < |s| ==> key(s[i]) <= key(s[j]) }

  /** Behind every element whose key is not greater. */
  function Insert<T>(s: seq<T>, e: T, key: T -> int): seq<T> {
    if |s| == 0 || key(s[|s| - 1]) <= key(e) then s + [e] else Insert(s[..|s| - 1], e, key) + [s[|s| - 1]]
  }

  function Sorted<T>(s: seq<T>, key: T -> int): seq<T> {
    if |s| == 0 then [] else Insert(Sorted(s[..|s| - 1], key), s[|s| - 1], key)
  }

  /** The elements with one key, in the order they stand. */
  function With<T>(s: seq<T>, key: T -> int, k: int): seq<T> {
    if |s| == 0 then [] else With(s[..|s| - 1], key, k) + if key(s[|s| - 1]) == k then [s[|s| - 1]] else []
  }

  lemma {:induction false} InsertHas<T>(s: seq<T>, e: T, key: T -> int, x: T)
    ensures x in Insert(s, e, key) <==> x == e || x in s
  {
    if !(|s| == 0 || key(s[|s| - 1]) <= key(e)) {
      InsertHas(s[..|s| - 1], e, key, x);
      assert s == s[..|s| - 1] + [s[|s| - 1]];
    }
  }

  lemma {:induction false} InsertOrders<T>(s: seq<T>, e: T, key: T -> int)
    requires InOrder(s, key)
    ensures InOrder(Insert(s, e, key), key) && |Insert(s, e, key)| == |s| + 1
  {
    if !(|s| == 0 || key(s[|s| - 1]) <= key(e)) {
      var front := Insert(s[..|s| - 1], e, key);
      InsertOrders(s[..|s| - 1], e, key);
      forall i | 0 <= i < |front| ensures key(front[i]) <= key(s[|s| - 1]) {
        InsertHas(s[..|s| - 1], e, key, front[i]);
      }
    }
  }

  lemma {:induction false} InsertMultiset<T>(s: seq<T>, e: T, key: T -> int)
    ensures multiset(Insert(s, e, key)) == multiset(s) + multiset{e}
  {
    if !(|s| == 0 || key(s[|s| - 1]) <= key(e)) {
      InsertMultiset(s[..|s| - 1], e, key);
      assert s == s[..|s| - 1] + [s[|s| - 1]];
    }
  }

  lemma {:induction false} WithAppend<T>(s: seq<T>, e: T, key: T -> int, k: int)
    ensures With(s + [e], key, k) == With(s, key, k) + if key(e) == k then [e] else []
  {
    assert (s + [e])[..|s|] == s;
  }

  lemma {:induction false} InsertStable<T>(s: seq<T>, e: T, key: T -> int, k: int)
    requires InOrder(s, key)
    ensures With(Insert(s, e, key), key, k) == With(s, key, k) + if key(e) == k then [e] else []
  {
    if |s| == 0 || key(s[|s| - 1]) <= key(e) {
      WithAppend(s, e, key, k);
    } else {
      InsertStable(s[..|s| - 1], e, key, k);
      WithAppend(Insert(s[..|s| - 1], e, key), s[|s| - 1], key, k);
    }
  }

  /** In order, with the same elements under every key in the same order: this is the stable sort, and no other
   *  sequence. */
  lemma {:induction false} SortIsStable<T>(s: seq<T>, key: T -> int)
    ensures InOrder(Sorted(s, key), key) && |Sorted(s, key)| == |s|
    ensures forall k :: With(Sorted(s, key), key, k) == With(s, key, k)
  {
    if |s| > 0 {
      var init := s[..|s| - 1];
      SortIsStable(init, key);
      InsertOrders(Sorted(init, key), s[|s| - 1], key);
      forall k ensures With(Sorted(s, key), key, k) == With(s, key, k) {
        InsertStable(Sorted(init, key), s[|s| - 1], key, k);
      }
    }
  }

  lemma {:induction false} SortKeepsOrdered<T>(s: seq<T>, key: T -> int)
    requires InOrder(s, key)
    ensures Sorted(s, key) == s
  {
    if |s| > 0 { SortKeepsOrdered(s[..|s| - 1], key); }
  }
}
