/** The JavaScript array operations the components rely on, over Dafny
    sequences: `Array.prototype.filter`, `Array.prototype.slice` with
    non-negative bounds, and the de-duplication `[...new Set(xs)]`, which
    keeps each value at the place of its first appearance. */
module Seqs {
  import opened Common

  /** `s.filter(p)`: the elements of `s` that satisfy `p`, in their order. */
  function Filter<T>(s: seq<T>, p: T -> bool): (r: seq<T>)
    ensures |r| <= |s|
    ensures forall i :: 0 <= i < |r| ==> r[i] in s && p(r[i])
    ensures forall i :: 0 <= i < |s| && p(s[i]) ==> s[i] in r
    decreases |s|
  {
    if s == [] then []
    else (if p(s[0]) then [s[0]] else []) + Filter(s[1..], p)
  }

  /** Filtering commutes with concatenation, so it never reorders what it keeps. */
  lemma {:induction false} FilterConcat<T>(a: seq<T>, b: seq<T>, p: T -> bool)
    ensures Filter(a + b, p) == Filter(a, p) + Filter(b, p)
    decreases |a|
  {
    if a == [] {
      assert a + b == b;
    } else {
      assert (a + b)[1..] == a[1..] + b;
      FilterConcat(a[1..], b, p);
    }
  }

  /** A filter that every element passes keeps the whole sequence. */
  lemma {:induction false} FilterKeepsAll<T>(s: seq<T>, p: T -> bool)
    requires forall i :: 0 <= i < |s| ==> p(s[i])
    ensures Filter(s, p) == s
    decreases |s|
  {
    if s != [] {
      FilterKeepsAll(s[1..], p);
    }
  }

  /** The elements that pass and the elements that fail split the input. */
  lemma {:induction false} FilterPartition<T>(s: seq<T>, p: T -> bool)
    ensures |Filter(s, p)| + |Filter(s, x => !p(x))| == |s|
    decreases |s|
  {
    if s != [] {
      FilterPartition(s[1..], p);
    }
  }

  /** `s.slice(start, end)` for non-negative `start` and `end`: both bounds
      are clamped to the length, and an end before the start gives `[]`. */
  function Slice<T>(s: seq<T>, start: nat, end: nat): (r: seq<T>)
    ensures start <= end <= |s| ==> r == s[start..end]
    ensures |s| <= start ==> r == []
    ensures start <= |s| <= end ==> r == s[start..]
    ensures end <= start ==> r == []
  {
    var lo := Min(start, |s|);
    var hi := Max(lo, Min(end, |s|));
    s[lo..hi]
  }

  ghost predicate NoDuplicates<T>(s: seq<T>) {
    forall i, j :: 0 <= i < j < |s| ==> s[i] != s[j]
  }

  /** The index of the first occurrence of `x` in `s`. */
  function FirstIndex<T(==)>(s: seq<T>, x: T): (k: nat)
    requires x in s
    ensures k < |s| && s[k] == x && x !in s[..k]
    decreases |s|
  {
    if x in s[..|s| - 1] then FirstIndex(s[..|s| - 1], x) else |s| - 1
  }

  /** `[...new Set(s)]`: each value once, in order of first appearance (a
      `Set` iterates in insertion order, and inserting a present value is a
      no-op). */
  function Dedup<T(==)>(s: seq<T>): (r: seq<T>)
    ensures forall i :: 0 <= i < |r| ==> r[i] in s
    ensures forall i :: 0 <= i < |s| ==> s[i] in r
    ensures NoDuplicates(r)
    decreases |s|
  {
    if s == [] then []
    else
      var d := Dedup(s[..|s| - 1]);
      if s[|s| - 1] in d then d else d + [s[|s| - 1]]
  }

  /** The distinct values come out in the order of their first appearance. */
  lemma {:induction false} DedupFirstAppearanceOrder<T>(s: seq<T>)
    ensures forall i, j :: 0 <= i < j < |Dedup(s)| ==>
      FirstIndex(s, Dedup(s)[i]) < FirstIndex(s, Dedup(s)[j])
    decreases |s|
  {
    if s != [] {
      var s' := s[..|s| - 1];
      DedupFirstAppearanceOrder(s');
      var d := Dedup(s');
      var y := s[|s| - 1];
      forall x | x in s'
        ensures FirstIndex(s, x) == FirstIndex(s', x)
      {
      }
      forall i, j | 0 <= i < j < |Dedup(s)|
        ensures FirstIndex(s, Dedup(s)[i]) < FirstIndex(s, Dedup(s)[j])
      {
        if y in d {
          assert Dedup(s) == d;
        } else {
          assert Dedup(s) == d + [y];
          assert Dedup(s)[i] == d[i];
          if j < |d| {
            assert Dedup(s)[j] == d[j];
          } else {
            assert Dedup(s)[j] == y && y !in s';
            assert FirstIndex(s, y) == |s| - 1;
          }
        }
      }
    }
  }
}
