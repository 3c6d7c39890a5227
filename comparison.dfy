/**
 The data comparison of the test suite (check_dataframes_data_are_equal):
 two collected frames are equal when they hold the same set of rows, so row
 order and row multiplicity are both ignored.
 */
module Comparison {

  /** The frames hold the same rows, in any order and any number of times. */
  function DataEqual<T(==)>(ref: seq<T>, test: seq<T>): (equal: bool)
    ensures equal <==>
      (forall i :: 0 <= i < |ref| ==> ref[i] in test) && (forall k :: 0 <= k < |test| ==> test[k] in ref)
  {
    var a := set x | x in ref;
    var b := set x | x in test;
    assert (forall i :: 0 <= i < |ref| ==> ref[i] in a) && (forall k :: 0 <= k < |test| ==> test[k] in b);
    assert (forall i :: 0 <= i < |ref| ==> ref[i] in test) && (forall k :: 0 <= k < |test| ==> test[k] in ref)
      ==> a == b;
    a == b
  }

  lemma DataEqualReflexive<T>(s: seq<T>)
    ensures DataEqual(s, s)
  {
  }

  lemma DataEqualSymmetric<T>(a: seq<T>, b: seq<T>)
    requires DataEqual(a, b)
    ensures DataEqual(b, a)
  {
  }

  lemma DataEqualTransitive<T>(a: seq<T>, b: seq<T>, c: seq<T>)
    requires DataEqual(a, b) && DataEqual(b, c)
    ensures DataEqual(a, c)
  {
    forall i | 0 <= i < |a| ensures a[i] in c {
      assert a[i] in b;
      var k :| 0 <= k < |b| && b[k] == a[i];
    }
    forall i | 0 <= i < |c| ensures c[i] in a {
      assert c[i] in b;
      var k :| 0 <= k < |b| && b[k] == c[i];
    }
  }

  /** Reordering a frame's rows never makes the comparison fail. */
  lemma PermutationDataEqual<T>(a: seq<T>, b: seq<T>)
    requires multiset(a) == multiset(b)
    ensures DataEqual(a, b)
  {
    forall i | 0 <= i < |a| ensures a[i] in b {
      assert a[i] in multiset(a);
    }
    forall k | 0 <= k < |b| ensures b[k] in a {
      assert b[k] in multiset(b);
    }
  }

  /** The comparison cannot see a duplicated row: a frame equals its doubling. */
  lemma DuplicatesUndetected<T>(x: T)
    ensures DataEqual([x], [x, x]) && multiset([x]) != multiset([x, x])
  {
    assert multiset([x, x])[x] == 2;
  }
}
