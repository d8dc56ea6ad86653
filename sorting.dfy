/**
 * `Array.prototype.sort` with a comparator, as used by the message listings
 * and the module registry. JavaScript's sort is stable, and each comparator in
 * the system orders elements by a lexicographic pair of integers, so the
 * result is the unique stable arrangement by that key. It is modelled here by
 * insertion sort on a key function.
 */
module Sorting {
  import opened Seqs

  /** A comparator key: `major` first, `minor` breaks ties; smaller sorts first. */
  datatype Key = Key(major: int, minor: int)

  predicate KeyLe(a: Key, b: Key) {
    a.major < b.major || (a.major == b.major && a.minor <= b.minor)
  }

  predicate SortedByKey<T>(s: seq<T>, key: T -> Key) {
    forall i, j :: 0 <= i < j < |s| ==> KeyLe(key(s[i]), key(s[j]))
  }

  /** Insert `x` in front of the first element whose key is not smaller. */
  function Insert<T>(x: T, s: seq<T>, key: T -> Key): (r: seq<T>)
    ensures |r| == |s| + 1
    ensures r[0] == x || (s != [] && r[0] == s[0])
    ensures multiset(r) == multiset(s) + multiset{x}
  {
    if s == [] then [x]
    else if KeyLe(key(x), key(s[0])) then [x] + s
    else
      assert s == [s[0]] + s[1..];
      [s[0]] + Insert(x, s[1..], key)
  }

  lemma {:induction false} InsertSorted<T>(x: T, s: seq<T>, key: T -> Key)
    requires SortedByKey(s, key)
    ensures SortedByKey(Insert(x, s, key), key)
  {
    var r := Insert(x, s, key);
    if s == [] {
    } else if KeyLe(key(x), key(s[0])) {
      assert forall j :: 0 < j < |r| ==> r[j] == s[j - 1];
    } else {
      var t := Insert(x, s[1..], key);
      InsertSorted(x, s[1..], key);
      assert KeyLe(key(s[0]), key(t[0]));
      assert forall j :: 0 < j < |t| ==> KeyLe(key(t[0]), key(t[j]));
      assert forall j :: 0 < j < |r| ==> r[j] == t[j - 1];
    }
  }

  /** The sorted arrangement the comparator yields. */
  function SortByKey<T>(s: seq<T>, key: T -> Key): (r: seq<T>)
    ensures SortedByKey(r, key)
    ensures multiset(r) == multiset(s)
    ensures |r| == |s|
  {
    if s == [] then []
    else
      assert s == [s[0]] + s[1..];
      var t := SortByKey(s[1..], key);
      InsertSorted(s[0], t, key);
      Insert(s[0], t, key)
  }

  /** The elements whose key is `k`, in order. */
  function WithKey<T(!new)>(s: seq<T>, key: T -> Key, k: Key): seq<T> {
    Filter(s, (y: T) => key(y) == k)
  }

  /** Inserting adds `x` to the elements of its key, in front of them. */
  lemma {:induction false} InsertWithKey<T(!new)>(x: T, s: seq<T>, key: T -> Key, k: Key)
    ensures WithKey(Insert(x, s, key), key, k) == (if key(x) == k then [x] else []) + WithKey(s, key, k)
  {
    var r := Insert(x, s, key);
    if s == [] || KeyLe(key(x), key(s[0])) {
      assert r == [x] + s && r[1..] == s;
    } else {
      var t := Insert(x, s[1..], key);
      assert r == [s[0]] + t && r[1..] == t;
      InsertWithKey(x, s[1..], key, k);
      var a := if key(s[0]) == k then [s[0]] else [];
      var b := if key(x) == k then [x] else [];
      var rest := WithKey(s[1..], key, k);
      assert WithKey(r, key, k) == a + WithKey(t, key, k);
      assert WithKey(t, key, k) == b + rest;
      assert WithKey(s, key, k) == a + rest;
      if a == [] {
        assert a + (b + rest) == b + rest && a + rest == rest;
      } else {
        assert b == [];
        assert b + (a + rest) == a + rest && b + rest == rest;
      }
    }
  }

  /** Stability: elements with equal keys keep their original relative order. */
  lemma {:induction false} SortIsStable<T(!new)>(s: seq<T>, key: T -> Key, k: Key)
    ensures WithKey(SortByKey(s, key), key, k) == WithKey(s, key, k)
  {
    if s != [] {
      SortIsStable(s[1..], key, k);
      InsertWithKey(s[0], SortByKey(s[1..], key), key, k);
    }
  }

  lemma SortedSlice<T>(s: seq<T>, key: T -> Key, lo: nat, hi: nat)
    requires SortedByKey(s, key) && lo <= hi <= |s|
    ensures SortedByKey(s[lo..hi], key)
  {
    assert forall i :: 0 <= i < hi - lo ==> s[lo..hi][i] == s[lo + i];
  }

  /** A filter of a sorted sequence is sorted. */
  lemma {:induction false} FilterKeepsSorted<T(!new)>(s: seq<T>, p: T -> bool, key: T -> Key)
    requires SortedByKey(s, key)
    ensures SortedByKey(Filter(s, p), key)
  {
    if s != [] {
      FilterKeepsSorted(s[1..], p, key);
      FilterMembers(s[1..], p);
      var rest := Filter(s[1..], p);
      if p(s[0]) {
        var r := Filter(s, p);
        assert r == [s[0]] + rest;
        forall j | 0 < j < |r| ensures KeyLe(key(r[0]), key(r[j])) {
          assert r[j] in s[1..];
        }
      }
    }
  }

  /** A sorted filter holds exactly the passing elements, each as often as before, in key order. */
  lemma SortedSelection<T(!new)>(s: seq<T>, p: T -> bool, key: T -> Key)
    ensures var r := SortByKey(Filter(s, p), key);
            && (forall x :: x in r <==> x in s && p(x))
            && (forall x :: multiset(r)[x] == if p(x) then multiset(s)[x] else 0)
            && SortedByKey(r, key)
  {
    var f := Filter(s, p);
    var r := SortByKey(f, key);
    FilterMembers(s, p);
    forall x ensures multiset(r)[x] == if p(x) then multiset(s)[x] else 0 {
      FilterMultiset(s, p, x);
    }
    forall x ensures x in r <==> x in f {
      assert x in r <==> multiset(r)[x] > 0;
      assert x in f <==> multiset(f)[x] > 0;
    }
  }

  /** One step of the sort: the head is inserted into the sorted tail. */
  lemma SortCons<T>(s: seq<T>, key: T -> Key)
    requires s != []
    ensures SortByKey(s, key) == Insert(s[0], SortByKey(s[1..], key), key)
  {
  }

  /** An element not above the head goes in front. */
  lemma InsertFront<T>(x: T, s: seq<T>, key: T -> Key)
    requires s == [] || KeyLe(key(x), key(s[0]))
    ensures Insert(x, s, key) == [x] + s
  {
  }

  /** An element above the head goes past it. */
  lemma InsertPast<T>(x: T, s: seq<T>, key: T -> Key)
    requires s != [] && !KeyLe(key(x), key(s[0]))
    ensures Insert(x, s, key) == [s[0]] + Insert(x, s[1..], key)
  {
  }
}
