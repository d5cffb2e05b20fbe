/** Python's `sorted`: on strings (code-point lexicographic order, used with `key=str`) and on integer codes. */
module Sorting {
  import opened Lists


  /** Python's `a <= b` on strings: code-point lexicographic order. */
  predicate LexLe(a: string, b: string)
    decreases |a|
  {
    a == [] || (b != [] && (a[0] < b[0] || (a[0] == b[0] && LexLe(a[1..], b[1..]))))
  }

  lemma {:induction false} LexLeReflexive(a: string)
    ensures LexLe(a, a)
    decreases |a|
  {
    if a != [] {
      LexLeReflexive(a[1..]);
    }
  }

  lemma {:induction false} LexLeTotal(a: string, b: string)
    ensures LexLe(a, b) || LexLe(b, a)
    decreases |a|
  {
    if a != [] && b != [] && a[0] == b[0] {
      LexLeTotal(a[1..], b[1..]);
    }
  }

  lemma {:induction false} LexLeTransitive(a: string, b: string, c: string)
    requires LexLe(a, b) && LexLe(b, c)
    ensures LexLe(a, c)
    decreases |a|
  {
    if a != [] && a[0] == b[0] && b[0] == c[0] {
      LexLeTransitive(a[1..], b[1..], c[1..]);
    }
  }

  lemma {:induction false} LexLeAntisymmetric(a: string, b: string)
    requires LexLe(a, b) && LexLe(b, a)
    ensures a == b
    decreases |a|
  {
    if a != [] {
      LexLeAntisymmetric(a[1..], b[1..]);
      assert a == [a[0]] + a[1..] && b == [b[0]] + b[1..];
    }
  }

  /** `s` is in non-decreasing order of `key`. */
  predicate SortedBy<T>(s: seq<T>, key: T -> string) {
    forall i :: 0 < i < |s| ==> LexLe(key(s[i - 1]), key(s[i]))
  }

  /** Inserts `x` into the sorted list `s` after every element whose key is not above `x`'s. */
  function InsertBy<T>(x: T, s: seq<T>, key: T -> string): (r: seq<T>)
    requires SortedBy(s, key)
    ensures multiset(r) == multiset(s) + multiset{x}
    ensures SortedBy(r, key)
    ensures r[0] == x || (s != [] && r[0] == s[0])
  {
    if s == [] then [x]
    else if LexLe(key(s[0]), key(x)) then
      SortedByTail(s, key);
      var t := InsertBy(x, s[1..], key);
      assert s == [s[0]] + s[1..];
      SortedByCons(s[0], t, key);
      [s[0]] + t
    else
      LexLeTotal(key(s[0]), key(x));
      SortedByCons(x, s, key);
      [x] + s
  }

  /** The tail of a sorted list is sorted. */
  lemma SortedByTail<T>(s: seq<T>, key: T -> string)
    requires s != [] && SortedBy(s, key)
    ensures SortedBy(s[1..], key)
  {
    forall i | 0 < i < |s| - 1 ensures LexLe(key(s[1..][i - 1]), key(s[1..][i])) {
      assert s[1..][i - 1] == s[i] && s[1..][i] == s[i + 1];
    }
  }

  /** A sorted list stays sorted under an element whose key is not above its first one's. */
  lemma SortedByCons<T>(x: T, s: seq<T>, key: T -> string)
    requires SortedBy(s, key) && (s != [] ==> LexLe(key(x), key(s[0])))
    ensures SortedBy([x] + s, key)
  {
    forall i | 0 < i < |s| + 1 ensures LexLe(key(([x] + s)[i - 1]), key(([x] + s)[i])) {
      if i > 1 {
        assert ([x] + s)[i - 1] == s[i - 2] && ([x] + s)[i] == s[i - 1];
      }
    }
  }

  /** `sorted(s, key=key)`: a permutation of `s` in non-decreasing order of `key`. */
  function SortBy<T>(s: seq<T>, key: T -> string): (r: seq<T>)
    ensures multiset(r) == multiset(s)
    ensures SortedBy(r, key)
  {
    if s == [] then []
    else
      assert s == s[..|s| - 1] + [s[|s| - 1]];
      InsertBy(s[|s| - 1], SortBy(s[..|s| - 1], key), key)
  }

  /** In a list sorted by `key`, no key is below the first one. */
  lemma {:induction false} SortedByFirst<T>(r: seq<T>, key: T -> string, i: nat)
    requires SortedBy(r, key) && i < |r|
    ensures LexLe(key(r[0]), key(r[i]))
    decreases i
  {
    if i == 0 {
      LexLeReflexive(key(r[0]));
    } else {
      SortedByFirst(r, key, i - 1);
      LexLeTransitive(key(r[0]), key(r[i - 1]), key(r[i]));
    }
  }

  /** Two permutations of each other, both sorted by a key no two different elements share, start alike. */
  lemma SortedByHead<T>(r1: seq<T>, r2: seq<T>, key: T -> string)
    requires r1 != [] && r2 != [] && multiset(r1) == multiset(r2) && SortedBy(r1, key) && SortedBy(r2, key)
    requires forall x, y | x in r1 && y in r1 && key(x) == key(y) :: x == y
    ensures r1[0] == r2[0]
  {
    var a, b := r1[0], r2[0];
    assert a in multiset(r2) && b in multiset(r1);
    var i :| 0 <= i < |r2| && r2[i] == a;
    var j :| 0 <= j < |r1| && r1[j] == b;
    SortedByFirst(r2, key, i);
    SortedByFirst(r1, key, j);
    LexLeAntisymmetric(key(a), key(b));
  }

  /** When no two different elements share a key, a list has only one permutation sorted by
      that key: stability cannot make a difference, and SortBy's result is determined. */
  lemma {:induction false} SortedByUnique<T>(r1: seq<T>, r2: seq<T>, key: T -> string)
    requires multiset(r1) == multiset(r2) && SortedBy(r1, key) && SortedBy(r2, key)
    requires forall x, y | x in r1 && y in r1 && key(x) == key(y) :: x == y
    ensures r1 == r2
    decreases |r1|
  {
    assert |r1| == |multiset(r1)| == |multiset(r2)| == |r2|;
    if r1 != [] {
      SortedByHead(r1, r2, key);
      MultisetTail(r1, r2);
      SortedByTail(r1, key);
      SortedByTail(r2, key);
      assert forall x | x in r1[1..] :: x in r1;
      SortedByUnique(r1[1..], r2[1..], key);
      assert r1 == [r1[0]] + r1[1..] && r2 == [r2[0]] + r2[1..];
    }
  }

  /** `s` is in non-decreasing order. */
  predicate Sorted(s: seq<int>) {
    forall i :: 0 < i < |s| ==> s[i - 1] <= s[i]
  }

  /** Inserts `x` into the sorted list `s` after every element not above it. */
  function Insert(x: int, s: seq<int>): (r: seq<int>)
    requires Sorted(s)
    ensures multiset(r) == multiset(s) + multiset{x}
    ensures Sorted(r)
    ensures r[0] == x || (s != [] && r[0] == s[0])
  {
    if s == [] then [x]
    else if s[0] <= x then
      SortedTail(s);
      var t := Insert(x, s[1..]);
      assert s == [s[0]] + s[1..];
      SortedCons(s[0], t);
      [s[0]] + t
    else
      SortedCons(x, s);
      [x] + s
  }

  /** The tail of a sorted list is sorted. */
  lemma SortedTail(s: seq<int>)
    requires s != [] && Sorted(s)
    ensures Sorted(s[1..])
  {
    forall i | 0 < i < |s| - 1 ensures s[1..][i - 1] <= s[1..][i] {
      assert s[1..][i - 1] == s[i] && s[1..][i] == s[i + 1];
    }
  }

  /** A sorted list stays sorted under an element not above its first one. */
  lemma SortedCons(x: int, s: seq<int>)
    requires Sorted(s) && (s != [] ==> x <= s[0])
    ensures Sorted([x] + s)
  {
    forall i | 0 < i < |s| + 1 ensures ([x] + s)[i - 1] <= ([x] + s)[i] {
      if i > 1 {
        assert ([x] + s)[i - 1] == s[i - 2] && ([x] + s)[i] == s[i - 1];
      }
    }
  }

  /** `sorted(s)` on integer codes: a permutation of `s` in non-decreasing order. */
  function Sort(s: seq<int>): (r: seq<int>)
    ensures multiset(r) == multiset(s)
    ensures Sorted(r)
  {
    if s == [] then []
    else
      assert s == s[..|s| - 1] + [s[|s| - 1]];
      Insert(s[|s| - 1], Sort(s[..|s| - 1]))
  }

  /** In a sorted list, no element is below the first one. */
  lemma {:induction false} SortedFirst(r: seq<int>, i: nat)
    requires Sorted(r) && i < |r|
    ensures r[0] <= r[i]
    decreases i
  {
    if i > 0 {
      SortedFirst(r, i - 1);
    }
  }

  /** Two sorted permutations of each other start alike. */
  lemma SortedHead(r1: seq<int>, r2: seq<int>)
    requires r1 != [] && r2 != [] && multiset(r1) == multiset(r2) && Sorted(r1) && Sorted(r2)
    ensures r1[0] == r2[0]
  {
    var a, b := r1[0], r2[0];
    assert a in multiset(r2) && b in multiset(r1);
    var i :| 0 <= i < |r2| && r2[i] == a;
    var j :| 0 <= j < |r1| && r1[j] == b;
    SortedFirst(r2, i);
    SortedFirst(r1, j);
  }

  /** A list has only one sorted permutation, so Sort's result is determined. */
  lemma {:induction false} SortedUnique(r1: seq<int>, r2: seq<int>)
    requires multiset(r1) == multiset(r2) && Sorted(r1) && Sorted(r2)
    ensures r1 == r2
    decreases |r1|
  {
    assert |r1| == |multiset(r1)| == |multiset(r2)| == |r2|;
    if r1 != [] {
      SortedHead(r1, r2);
      MultisetTail(r1, r2);
      SortedTail(r1);
      SortedTail(r2);
      SortedUnique(r1[1..], r2[1..]);
      assert r1 == [r1[0]] + r1[1..] && r2 == [r2[0]] + r2[1..];
    }
  }
}
