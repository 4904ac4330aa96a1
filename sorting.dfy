/** The stable sort of Array.prototype.sort (stable since ECMAScript 2019),
    for a comparator of the form (a, b) => key(a) - key(b).  A descending
    comparator (a, b) => key(b) - key(a) is the same sort with the key negated.
    A stable sort's result is unique, so stable insertion sort stands for it. */
module Sorting {

  ghost predicate SortedBy<T>(s: seq<T>, key: T -> real)
  {
    forall i, j :: 0 <= i < j < |s| ==> key(s[i]) <= key(s[j])
  }

  /** The elements of s whose key is v, in their order in s. */
  function WithKey<T>(s: seq<T>, key: T -> real, v: real): (r: seq<T>)
    ensures |r| <= |s|
  {
    if s == [] then []
    else (if key(s[0]) == v then [s[0]] else []) + WithKey(s[1..], key, v)
  }

  /** Places x before the first element whose key is not smaller. */
  function Insert<T>(x: T, t: seq<T>, key: T -> real): (r: seq<T>)
    ensures |r| == |t| + 1
    ensures multiset(r) == multiset(t) + multiset{x}
  {
    if t == [] || key(x) <= key(t[0]) then [x] + t
    else
      assert t == [t[0]] + t[1..];
      [t[0]] + Insert(x, t[1..], key)
  }

  /** The head of Insert(x, t) is x or the head of t. */
  lemma InsertHead<T>(x: T, t: seq<T>, key: T -> real)
    ensures Insert(x, t, key)[0] == x || (t != [] && Insert(x, t, key)[0] == t[0])
  {
  }

  lemma SortedTail<T>(t: seq<T>, key: T -> real)
    requires t != [] && SortedBy(t, key)
    ensures SortedBy(t[1..], key)
  {
    forall i, j | 0 <= i < j < |t[1..]| ensures key(t[1..][i]) <= key(t[1..][j]) {
      assert t[1..][i] == t[i + 1] && t[1..][j] == t[j + 1];
    }
  }

  /** Putting a in front of a sorted sequence whose head has a key no smaller keeps it sorted. */
  lemma SortedCons<T>(a: T, rest: seq<T>, key: T -> real)
    requires SortedBy(rest, key) && (rest != [] ==> key(a) <= key(rest[0]))
    ensures SortedBy([a] + rest, key)
  {
    var r := [a] + rest;
    forall i, j | 0 <= i < j < |r| ensures key(r[i]) <= key(r[j]) {
      assert r[j] == rest[j - 1];
      if i > 0 {
        assert r[i] == rest[i - 1];
      } else if j > 1 {
        assert key(rest[0]) <= key(rest[j - 1]);
      }
    }
  }

  /** Inserting into a sorted sequence keeps it sorted. */
  lemma {:induction false} InsertSorted<T>(x: T, t: seq<T>, key: T -> real)
    requires SortedBy(t, key)
    ensures SortedBy(Insert(x, t, key), key)
  {
    if t == [] || key(x) <= key(t[0]) {
      SortedCons(x, t, key);
    } else {
      var rest := Insert(x, t[1..], key);
      SortedTail(t, key);
      InsertSorted(x, t[1..], key);
      InsertHead(x, t[1..], key);
      if rest[0] != x {
        assert key(t[0]) <= key(t[1]);
      }
      SortedCons(t[0], rest, key);
    }
  }

  function SortBy<T>(s: seq<T>, key: T -> real): (r: seq<T>)
    ensures |r| == |s|
    ensures multiset(r) == multiset(s)
    ensures SortedBy(r, key)
  {
    if s == [] then []
    else
      assert s == [s[0]] + s[1..];
      var t := SortBy(s[1..], key);
      InsertSorted(s[0], t, key);
      Insert(s[0], t, key)
  }

  /** The head of a sorted non-empty sequence is one of its elements and has a least key. */
  lemma SortByHead<T>(s: seq<T>, key: T -> real)
    requires s != []
    ensures SortBy(s, key)[0] in s
    ensures forall x :: x in s ==> key(SortBy(s, key)[0]) <= key(x)
  {
    var r := SortBy(s, key);
    assert r[0] in multiset(r);
    forall x | x in s ensures key(r[0]) <= key(x) {
      assert x in multiset(r);
      var q :| 0 <= q < |r| && r[q] == x;
      if q > 0 {
        assert key(r[0]) <= key(r[q]);
      }
    }
  }

  lemma WithKeyCons<T>(a: T, s: seq<T>, key: T -> real, v: real)
    ensures WithKey([a] + s, key, v) == (if key(a) == v then [a] else []) + WithKey(s, key, v)
  {
    assert ([a] + s)[0] == a && ([a] + s)[1..] == s;
  }

  /** Filtered by key value, the inserted element takes its place among the others. */
  lemma {:induction false} InsertWithKey<T>(x: T, t: seq<T>, key: T -> real, v: real)
    ensures WithKey(Insert(x, t, key), key, v) ==
            (if key(x) == v then [x] else []) + WithKey(t, key, v)
  {
    if t == [] || key(x) <= key(t[0]) {
      assert Insert(x, t, key) == [x] + t;
      WithKeyCons(x, t, key, v);
    } else {
      var rest := Insert(x, t[1..], key);
      assert Insert(x, t, key) == [t[0]] + rest;
      assert t == [t[0]] + t[1..];
      InsertWithKey(x, t[1..], key, v);
      WithKeyCons(t[0], rest, key, v);
      WithKeyCons(t[0], t[1..], key, v);
      var sx: seq<T> := if key(x) == v then [x] else [];
      var s0: seq<T> := if key(t[0]) == v then [t[0]] else [];
      assert sx == [] || s0 == [];
      assert s0 + (sx + WithKey(t[1..], key, v)) == sx + (s0 + WithKey(t[1..], key, v));
    }
  }

  /** Stability: for every key value, the elements with that key keep their order. */
  lemma {:induction false} SortByStable<T>(s: seq<T>, key: T -> real, v: real)
    ensures WithKey(SortBy(s, key), key, v) == WithKey(s, key, v)
  {
    if s != [] {
      SortByStable(s[1..], key, v);
      InsertWithKey(s[0], SortBy(s[1..], key), key, v);
    }
  }

  /** The first element with key v is the first element of s with that key. */
  lemma {:induction false} WithKeyFirst<T>(s: seq<T>, key: T -> real, v: real) returns (i: nat)
    requires WithKey(s, key, v) != []
    ensures i < |s| && s[i] == WithKey(s, key, v)[0] && key(s[i]) == v
    ensures forall j :: 0 <= j < i ==> key(s[j]) != v
  {
    if key(s[0]) == v {
      i := 0;
    } else {
      assert WithKey(s, key, v) == WithKey(s[1..], key, v);
      var i1 := WithKeyFirst(s[1..], key, v);
      i := i1 + 1;
      forall j | 0 <= j < i ensures key(s[j]) != v {
        if j > 0 {
          assert s[j] == s[1..][j - 1];
        }
      }
    }
  }

  /** Ties keep their order: the head of the sort is the first element of s that has a
      least key, and every element before it has a greater key. */
  lemma SortByHeadFirst<T>(s: seq<T>, key: T -> real) returns (i: nat)
    requires s != []
    ensures i < |s| && SortBy(s, key)[0] == s[i]
    ensures forall x :: x in s ==> key(s[i]) <= key(x)
    ensures forall j :: 0 <= j < i ==> key(s[j]) > key(s[i])
  {
    var r := SortBy(s, key);
    SortByHead(s, key);
    var v := key(r[0]);
    assert WithKey(r, key, v) == [r[0]] + WithKey(r[1..], key, v);
    SortByStable(s, key, v);
    i := WithKeyFirst(s, key, v);
    forall j | 0 <= j < i ensures key(s[j]) > key(s[i]) {
      assert s[j] in s;
    }
  }
}
