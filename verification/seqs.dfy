/**
 * Sequence notions shared by several parts of the model: duplicate-freedom,
 * the insertion-ordered contents of a JavaScript `Set`, and rearrangement
 * by a permutation of positions.
 */
module Seqs {

  predicate NoDuplicates<T(==)>(xs: seq<T>) {
    forall i, j :: 0 <= i < j < |xs| ==> xs[i] != xs[j]
  }

  /** `set.add(x)` on a set kept as its insertion-ordered contents. */
  function SetAdd<T(==,!new)>(s: seq<T>, x: T): (r: seq<T>)
    requires NoDuplicates(s)
    ensures NoDuplicates(r)
    ensures forall y :: y in r <==> y in s || y == x
    ensures |r| == if x in s then |s| else |s| + 1
  {
    if x in s then s else s + [x]
  }

  /** The contents of a `Set` after adding `xs` in order: first occurrences, in insertion order. */
  function Firsts<T(==,!new)>(xs: seq<T>): (r: seq<T>)
    ensures NoDuplicates(r)
    ensures forall x :: x in r <==> x in xs
    ensures |r| <= |xs|
  {
    if |xs| == 0 then []
    else
      var p := Firsts(xs[..|xs| - 1]);
      var x := xs[|xs| - 1];
      assert forall y :: y in xs <==> y in xs[..|xs| - 1] || y == x;
      if x in p then p else p + [x]
  }

  /** Adding one more element to the set. */
  lemma FirstsStep<T(!new)>(xs: seq<T>, x: T)
    ensures Firsts(xs + [x]) == SetAdd(Firsts(xs), x)
  {
    assert (xs + [x])[..|xs|] == xs;
  }

  /** `p` lists every position below `n` exactly once. */
  predicate IsPermutation(p: seq<nat>, n: nat) {
    && |p| == n && NoDuplicates(p)
    && (forall i :: 0 <= i < n ==> p[i] < n)
    && (forall k: nat :: k < n ==> k in p)
  }

  /**
   * The arrangement `p` of `a`: element `i` of the result is `a[p[i]]`.
   * An order that is not a permutation of `a`'s positions leaves `a` as it is.
   */
  function Reorder<T>(a: seq<T>, p: seq<nat>): (r: seq<T>)
    ensures |r| == |a|
    ensures IsPermutation(p, |a|) ==> forall i :: 0 <= i < |a| ==> r[i] == a[p[i]]
    ensures !IsPermutation(p, |a|) ==> r == a
  {
    if IsPermutation(p, |a|) then seq(|a|, i requires 0 <= i < |a| => a[p[i]]) else a
  }

  /** A rearrangement keeps exactly the same elements, and keeps them duplicate-free. */
  lemma ReorderKeepsElements<T>(a: seq<T>, p: seq<nat>)
    ensures forall x :: x in Reorder(a, p) <==> x in a
    ensures NoDuplicates(a) ==> NoDuplicates(Reorder(a, p))
  {
    var r := Reorder(a, p);
    if IsPermutation(p, |a|) {
      forall x | x in a ensures x in r {
        var k :| 0 <= k < |a| && a[k] == x;
        assert k in p;
        var i :| 0 <= i < |a| && p[i] == k;
        assert r[i] == x;
      }
    }
  }

  /** An element found at one position only is still found at one position only after a rearrangement. */
  lemma ReorderKeepsSingle<T>(a: seq<T>, p: seq<nat>, x: T)
    requires forall i, j :: 0 <= i < |a| && 0 <= j < |a| && a[i] == x && a[j] == x ==> i == j
    ensures var r := Reorder(a, p);
      forall i, j :: 0 <= i < |r| && 0 <= j < |r| && r[i] == x && r[j] == x ==> i == j
  {
    var r := Reorder(a, p);
    if IsPermutation(p, |a|) {
      forall i, j | 0 <= i < |r| && 0 <= j < |r| && r[i] == x && r[j] == x ensures i == j {
        assert a[p[i]] == x && a[p[j]] == x;
        assert p[i] == p[j];
      }
    }
  }
}
