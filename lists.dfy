/** Python list semantics the source relies on. */
module Lists {
  import opened Wrappers

  /** The position that the Python subscript `xs[k]` denotes in a list of length `n`:
      a negative `k` counts from the end, and anything outside `-n..n-1` raises IndexError. */
  function Resolve(n: nat, k: int): (r: Option<nat>)
    ensures r.Some? <==> -(n as int) <= k < n
    ensures r.Some? ==> r.value < n && (r.value == k || r.value == k + n)
  {
    if 0 <= k < n then Some(k)
    else if -(n as int) <= k < 0 then Some(k + n)
    else None
  }

  /** Python's `max(x, y)`. */
  function Max(x: int, y: int): (r: int)
    ensures r >= x && r >= y && (r == x || r == y)
  {
    if x >= y then x else y
  }

  /** Python's slice `s[:n]` for a non-negative `n`: the first `n` elements, or all of `s` if it is shorter. */
  function Prefix<T>(s: seq<T>, n: nat): (r: seq<T>)
    ensures |r| == if n <= |s| then n else |s|
    ensures forall k :: 0 <= k < |r| ==> r[k] == s[k]
  {
    if n <= |s| then s[..n] else s
  }

  /** A list in which no element occurs twice. */
  ghost predicate Distinct<T>(s: seq<T>) {
    forall x | x in s :: multiset(s)[x] == 1
  }

  /** The elements of a list, as a set. */
  ghost function Elements<T>(s: seq<T>): set<T> {
    set x | x in s
  }

  /** A duplicate-free list has as many elements as its set of elements. */
  lemma {:induction false} DistinctCardinality<T>(s: seq<T>)
    requires Distinct(s)
    ensures |Elements(s)| == |s|
  {
    if s != [] {
      var init, x := s[..|s| - 1], s[|s| - 1];
      assert s == init + [x];
      assert multiset(s) == multiset(init) + multiset{x};
      assert x !in init by {
        assert multiset(s)[x] == multiset(init)[x] + 1;
      }
      assert Distinct(init) by {
        forall y | y in init ensures multiset(init)[y] == 1 {
          assert multiset(s)[y] >= multiset(init)[y];
        }
      }
      DistinctCardinality(init);
      assert Elements(s) == Elements(init) + {x};
    }
  }

  /** In a duplicate-free list, two positions hold different elements. */
  lemma DistinctIndices<T>(s: seq<T>, i: nat, j: nat)
    requires Distinct(s) && i < j < |s|
    ensures s[i] != s[j]
  {
    assert s == s[..j] + [s[j]] + s[j + 1..];
    assert multiset(s)[s[j]] == multiset(s[..j])[s[j]] + 1 + multiset(s[j + 1..])[s[j]];
    assert multiset(s)[s[j]] == 1;
    assert s[i] in multiset(s[..j]);
  }

  /** A permutation of a duplicate-free list is duplicate-free. */
  lemma DistinctPermutation<T>(s: seq<T>, t: seq<T>)
    requires Distinct(s) && multiset(s) == multiset(t)
    ensures Distinct(t)
  {
    forall x | x in t ensures multiset(t)[x] == 1 {
      assert x in multiset(t);
    }
  }

  /** Two permutations of each other that start alike are permutations of each other after that start. */
  lemma MultisetTail<T>(r1: seq<T>, r2: seq<T>)
    requires r1 != [] && r2 != [] && r1[0] == r2[0] && multiset(r1) == multiset(r2)
    ensures multiset(r1[1..]) == multiset(r2[1..])
  {
    assert r1 == [r1[0]] + r1[1..] && r2 == [r2[0]] + r2[1..];
    assert multiset(r1[1..]) == multiset(r1) - multiset{r1[0]};
    assert multiset(r2[1..]) == multiset(r2) - multiset{r2[0]};
  }
}
