/**
 * Sequence vocabulary shared by the registries of the engine: the engine keeps
 * its bodies, joints, springs, particles and polygons in std::vector and edits
 * them with find / erase loops. These functions state what such loops leave
 * behind.
 */
module Seqs {

  /** The first position of `x` in `s`, or -1 when `x` does not occur. */
  function IndexOf<T(==)>(s: seq<T>, x: T): (r: int)
    ensures -1 <= r < |s|
    ensures r == -1 <==> x !in s
    ensures 0 <= r ==> s[r] == x && x !in s[..r]
  {
    if |s| == 0 then -1
    else if s[0] == x then 0
    else
      var k := IndexOf(s[1..], x);
      if k == -1 then -1
      else
        assert s[..k + 1] == [s[0]] + s[1..][..k];
        k + 1
  }

  /** `s` with the element at `i` erased (std::vector::erase of one position). */
  function RemoveAt<T>(s: seq<T>, i: nat): (r: seq<T>)
    requires i < |s|
    ensures |r| == |s| - 1
    ensures forall k :: 0 <= k < i ==> r[k] == s[k]
    ensures forall k :: i <= k < |r| ==> r[k] == s[k + 1]
  {
    s[..i] + s[i + 1..]
  }

  /** `s` with every element of `drop` erased, the survivors in their original order. */
  function Without<T(==)>(s: seq<T>, drop: set<T>): (r: seq<T>)
    ensures |r| <= |s|
    ensures forall k :: 0 <= k < |r| ==> r[k] in s && r[k] !in drop
    ensures forall k :: 0 <= k < |s| && s[k] !in drop ==> s[k] in r
  {
    if s == [] then []
    else (if s[0] in drop then [] else [s[0]]) + Without(s[1..], drop)
  }

  /** Number of occurrences of `x` in `s`. */
  function Count<T(==)>(s: seq<T>, x: T): (n: nat)
    ensures n <= |s|
    ensures n == 0 <==> x !in s
  {
    if s == [] then 0 else (if s[0] == x then 1 else 0) + Count(s[1..], x)
  }

  /** No element occurs twice. */
  predicate Distinct<T(==)>(s: seq<T>)
  {
    forall i, j :: 0 <= i < j < |s| ==> s[i] != s[j]
  }

  /** Filtering distributes over concatenation, which is what lets a loop filter a prefix at a time. */
  lemma {:induction false} WithoutAppend<T>(a: seq<T>, b: seq<T>, drop: set<T>)
    ensures Without(a + b, drop) == Without(a, drop) + Without(b, drop)
  {
    if a == [] {
      assert a + b == b;
    } else {
      assert (a + b)[1..] == a[1..] + b;
      WithoutAppend(a[1..], b, drop);
    }
  }

  /** Filtering one more element onto a filtered prefix. */
  lemma WithoutSnoc<T>(s: seq<T>, i: nat, drop: set<T>)
    requires i < |s|
    ensures Without(s[..i + 1], drop) == Without(s[..i], drop) + (if s[i] in drop then [] else [s[i]])
  {
    assert s[..i + 1] == s[..i] + [s[i]];
    WithoutAppend(s[..i], [s[i]], drop);
  }

  /**
   * One step of an erase-or-advance loop: with r[..n] the filtered first k
   * elements of s and r[n..] the rest of s, erasing r[n] when it is dropped
   * (or else advancing past it) keeps that shape with k + 1.
   */
  lemma EraseStep<T>(s: seq<T>, r: seq<T>, n: nat, k: nat, drop: set<T>)
    requires n < |r| && k < |s|
    requires r[..n] == Without(s[..k], drop) && r[n..] == s[k..]
    ensures r[n] in drop ==>
              var e := r[..n] + r[n + 1..];
              e[..n] == Without(s[..k + 1], drop) && e[n..] == s[k + 1..]
    ensures r[n] !in drop ==> r[..n + 1] == Without(s[..k + 1], drop) && r[n + 1..] == s[k + 1..]
  {
    assert r[n] == s[k];
    WithoutSnoc(s, k, drop);
    var e := r[..n] + r[n + 1..];
    assert e[..n] == r[..n];
    assert e[n..] == r[n + 1..];
    assert r[..n + 1] == r[..n] + [r[n]];
  }

  /** `x` occurs in the first k + 1 elements when it occurs in the first k or is the next one. */
  lemma InTakeSnoc<T>(s: seq<T>, k: nat, x: T)
    requires k < |s|
    ensures x in s[..k + 1] <==> x in s[..k] || s[k] == x
  {
    assert s[..k + 1] == s[..k] + [s[k]];
  }

  /** Filtering with a set that touches nothing in `s` keeps `s` as it is. */
  lemma {:induction false} WithoutNothing<T>(s: seq<T>, drop: set<T>)
    requires forall k :: 0 <= k < |s| ==> s[k] !in drop
    ensures Without(s, drop) == s
  {
    if s != [] {
      WithoutNothing(s[1..], drop);
    }
  }

  /** Erasing the first occurrence of `x` lowers its count by exactly one and leaves other counts alone. */
  lemma {:induction false} CountRemoveAt<T>(s: seq<T>, i: nat, y: T)
    requires i < |s|
    ensures Count(RemoveAt(s, i), y) == Count(s, y) - (if s[i] == y then 1 else 0)
  {
    if i == 0 {
      assert RemoveAt(s, 0) == s[1..];
    } else {
      assert RemoveAt(s, i) == [s[0]] + RemoveAt(s[1..], i - 1);
      assert RemoveAt(s, i)[1..] == RemoveAt(s[1..], i - 1);
      CountRemoveAt(s[1..], i - 1, y);
    }
  }

  /** Appending adds one occurrence of the appended element only. */
  lemma {:induction false} CountAppend<T>(s: seq<T>, x: T, y: T)
    ensures Count(s + [x], y) == Count(s, y) + (if x == y then 1 else 0)
  {
    if s == [] {
      assert [x][1..] == [];
    } else {
      assert (s + [x])[1..] == s[1..] + [x];
      CountAppend(s[1..], x, y);
    }
  }

  /** A prefix one element longer, as a multiset. */
  lemma TakeOneMore<T>(s: seq<T>, k: nat)
    requires k < |s|
    ensures s[..k + 1] == s[..k] + [s[k]]
    ensures multiset(s[..k + 1]) == multiset(s[..k]) + multiset{s[k]}
  {
    assert s[..k + 1] == s[..k] + [s[k]];
  }

  /** Erasing one position of a sequence without repeats removes exactly that element. */
  lemma EraseDistinct<T>(s: seq<T>, i: nat)
    requires Distinct(s) && i < |s|
    ensures Distinct(RemoveAt(s, i))
    ensures forall y :: y in RemoveAt(s, i) <==> y in s && y != s[i]
  {
    var r := RemoveAt(s, i);
    forall y | y in s && y != s[i]
      ensures y in r
    {
      var k :| 0 <= k < |s| && s[k] == y;
      if k < i {
        assert r[k] == y;
      } else {
        assert r[k - 1] == y;
      }
    }
  }

  /** A sequence without repeats holds every element at most once, as a multiset. */
  lemma {:induction false} DistinctMultiplicity<T>(s: seq<T>)
    requires Distinct(s)
    ensures forall x :: multiset(s)[x] <= 1
  {
    if s != [] {
      assert s == [s[0]] + s[1..];
      assert Distinct(s[1..]);
      DistinctMultiplicity(s[1..]);
      assert s[0] !in s[1..];
    }
  }

  /** Being free of repeats depends on the multiset only: a permutation keeps it. */
  lemma PermutationDistinct<T>(s: seq<T>, t: seq<T>)
    requires Distinct(s) && multiset(s) == multiset(t)
    ensures Distinct(t)
  {
    DistinctMultiplicity(s);
    forall i, j | 0 <= i < j < |t|
      ensures t[i] != t[j]
    {
      assert t == t[..j] + t[j..];
      assert t[i] in t[..j] && t[j] in t[j..];
      assert multiset(t)[t[j]] == multiset(t[..j])[t[j]] + multiset(t[j..])[t[j]];
    }
  }
}
