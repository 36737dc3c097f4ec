/**
 Facts about sequences that the proofs of the other modules use at points where the
 solver, surrounded by many other facts, does not find them on its own.
 */
module Sequences {

  lemma Assoc<T>(a: seq<T>, b: seq<T>, c: seq<T>)
    ensures (a + b) + c == a + (b + c)
  {
  }

  lemma PrefixCons<T>(x: T, s: seq<T>, m: nat)
    requires m < |s|
    ensures ([x] + s)[..m + 1] == [x] + s[..m]
    ensures ([x] + s)[m + 1] == s[m]
  {
    assert ([x] + s)[..m + 1] == [x] + s[..m] by {
      forall i | 0 <= i < m + 1 ensures ([x] + s)[..m + 1][i] == ([x] + s[..m])[i] {
      }
    }
  }

  /** Splitting a concatenation with a non-empty left part at its head. */
  lemma ConsAppend<T>(a: seq<T>, b: seq<T>)
    requires a != []
    ensures (a + b)[0] == a[0]
    ensures (a + b)[1..] == a[1..] + b
  {
  }

  /** The elements between a first and a last one. */
  lemma Framed<T>(first: T, middle: seq<T>, last: T)
    ensures |[first] + middle + [last]| == |middle| + 2
    ensures ([first] + middle + [last])[0] == first
    ensures ([first] + middle + [last])[|middle| + 1] == last
    ensures forall k :: 0 <= k < |middle| ==> ([first] + middle + [last])[k + 1] == middle[k]
  {
  }

  /** Sequence equality from equal lengths and equal elements. */
  lemma SameElements<T>(a: seq<T>, b: seq<T>)
    requires |a| == |b| && forall k :: 0 <= k < |a| ==> a[k] == b[k]
    ensures a == b
  {
  }

  /** Two steps that each append to a sequence append their concatenation. */
  lemma Concat<T>(s0: seq<T>, s1: seq<T>, s2: seq<T>, a: seq<T>, b: seq<T>)
    requires s1 == s0 + a && s2 == s1 + b
    ensures s2 == s0 + (a + b)
  {
    Assoc(s0, a, b);
  }

  /** A step that appends `a` followed by one that appends `b` and then `c`. */
  lemma Concat3<T>(s0: seq<T>, s1: seq<T>, s2: seq<T>, a: seq<T>, b: seq<T>, c: seq<T>)
    requires s1 == s0 + a && s2 == s1 + b + c
    ensures s2 == s0 + (a + b) + c
  {
    Assoc(s0, a, b);
  }
}
