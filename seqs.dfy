/**
 Generic operations on finite sequences of rows — counting, filtering,
 mapping — and the facts about them that the pipeline stages share: results
 depend only on the multiset of rows, and a few cardinality facts about
 finite sets (the pigeonhole principle in the form the stages need).
 */
module Seqs {

  /** Number of elements of `s` that satisfy `p`. */
  function CountWhere<T>(s: seq<T>, p: T -> bool): (n: nat)
    ensures n <= |s|
    ensures n == 0 <==> forall i :: 0 <= i < |s| ==> !p(s[i])
  {
    if s == [] then 0
    else CountWhere(s[..|s| - 1], p) + (if p(s[|s| - 1]) then 1 else 0)
  }

  /** The elements of `s` that satisfy `p`, in their original order. */
  function Filter<T>(s: seq<T>, p: T -> bool): (r: seq<T>)
    ensures |r| == CountWhere(s, p)
    ensures forall i :: 0 <= i < |r| ==> p(r[i]) && r[i] in s
  {
    if s == [] then []
    else
      var rest := Filter(s[..|s| - 1], p);
      if p(s[|s| - 1]) then rest + [s[|s| - 1]] else rest
  }

  /** `f` applied to every element of `s`. */
  function MapSeq<T, U>(s: seq<T>, f: T -> U): (r: seq<U>)
    ensures |r| == |s|
    ensures forall i :: 0 <= i < |s| ==> r[i] == f(s[i])
  {
    if s == [] then [] else MapSeq(s[..|s| - 1], f) + [f(s[|s| - 1])]
  }

  /** The complement of a predicate. */
  function Not<T>(p: T -> bool): T -> bool {
    x => !p(x)
  }

  /** No element occurs twice. */
  predicate Distinct<T(==)>(s: seq<T>) {
    forall i, k :: 0 <= i < k < |s| ==> s[i] != s[k]
  }

  /** The positions of `s` whose element satisfies `p`. */
  function IndexSet<T>(s: seq<T>, p: T -> bool): set<int> {
    set i | 0 <= i < |s| && p(s[i])
  }

  /** The image of `a` under `f`. */
  function Image<T, U>(a: set<T>, f: T -> U): set<U> {
    set x | x in a :: f(x)
  }

  /** The integers `lo` to `hi - 1`. */
  function Interval(lo: int, hi: int): (r: set<int>)
    ensures forall k :: k in r <==> lo <= k < hi
    decreases hi - lo
  {
    if lo >= hi then {} else {lo} + Interval(lo + 1, hi)
  }

  // ---------------------------------------------------------------- counting

  lemma {:induction false} CountAppend<T>(a: seq<T>, b: seq<T>, p: T -> bool)
    ensures CountWhere(a + b, p) == CountWhere(a, p) + CountWhere(b, p)
  {
    if b == [] {
      assert a + b == a;
    } else {
      var b' := b[..|b| - 1];
      assert (a + b)[..|a + b| - 1] == a + b';
      CountAppend(a, b', p);
    }
  }

  /** Counting agrees for predicates that agree on the elements of `s`. */
  lemma {:induction false} CountCongruent<T>(s: seq<T>, p: T -> bool, q: T -> bool)
    requires forall i :: 0 <= i < |s| ==> p(s[i]) == q(s[i])
    ensures CountWhere(s, p) == CountWhere(s, q)
  {
    if s != [] {
      CountCongruent(s[..|s| - 1], p, q);
    }
  }

  /** Counting `q` splits into the part that satisfies `p` and the part that does not. */
  lemma {:induction false} CountSplit<T>(s: seq<T>, q: T -> bool, p: T -> bool)
    ensures CountWhere(s, q)
         == CountWhere(s, x => q(x) && p(x)) + CountWhere(s, x => q(x) && !p(x))
  {
    if s != [] {
      CountSplit(s[..|s| - 1], q, p);
    }
  }

  /** If `p` implies `q` and some element satisfies `q` but not `p`, `q` counts strictly more. */
  lemma CountStrict<T>(s: seq<T>, p: T -> bool, q: T -> bool, k: int)
    requires forall i :: 0 <= i < |s| ==> p(s[i]) ==> q(s[i])
    requires 0 <= k < |s| && q(s[k]) && !p(s[k])
    ensures CountWhere(s, p) < CountWhere(s, q)
  {
    CountSplit(s, q, p);
    CountCongruent(s, x => q(x) && p(x), p);
    assert CountWhere(s, x => q(x) && !p(x)) != 0 by {
      assert (x => q(x) && !p(x))(s[k]);
    }
  }

  /** When every element satisfies `p`, all of them are counted. */
  lemma {:induction false} AllCounted<T>(s: seq<T>, p: T -> bool)
    requires forall i :: 0 <= i < |s| ==> p(s[i])
    ensures CountWhere(s, p) == |s|
  {
    if s != [] {
      AllCounted(s[..|s| - 1], p);
    }
  }

  /** The count is the number of matching positions. */
  lemma {:induction false} CountIsIndexSetSize<T>(s: seq<T>, p: T -> bool)
    ensures CountWhere(s, p) == |IndexSet(s, p)|
  {
    if s != [] {
      var n := |s| - 1;
      var init := s[..n];
      CountIsIndexSetSize(init, p);
      if p(s[n]) {
        assert IndexSet(s, p) == IndexSet(init, p) + {n};
      } else {
        assert IndexSet(s, p) == IndexSet(init, p);
      }
    }
  }

  /** The count is the size of any set that lists exactly the matching positions. */
  lemma CountByIndices<T>(s: seq<T>, p: T -> bool, positions: set<int>)
    requires forall i :: i in positions ==> 0 <= i < |s|
    requires forall i :: 0 <= i < |s| ==> (p(s[i]) <==> i in positions)
    ensures CountWhere(s, p) == |positions|
  {
    CountIsIndexSetSize(s, p);
    assert IndexSet(s, p) == positions;
  }

  /**
   The last element of `a` occurs in any reordering `b` of `a`, and removing it
   from both leaves reorderings of each other.
   */
  lemma MatchLast<T>(a: seq<T>, b: seq<T>) returns (k: int)
    requires multiset(a) == multiset(b) && a != []
    ensures 0 <= k < |b| && b[k] == a[|a| - 1]
    ensures a == a[..|a| - 1] + [a[|a| - 1]] && b == b[..k] + [b[k]] + b[k + 1..]
    ensures multiset(a[..|a| - 1]) == multiset(b[..k] + b[k + 1..])
  {
    var n := |a| - 1;
    var x := a[n];
    assert a == a[..n] + [x];
    assert x in multiset(b);
    k :| 0 <= k < |b| && b[k] == x;
    assert b == b[..k] + [x] + b[k + 1..];
    calc {
      multiset(a[..n]);
      multiset(a) - multiset{x};
      multiset(b) - multiset{x};
      multiset(b[..k] + b[k + 1..]);
    }
  }

  /** The count depends only on the multiset of elements, not on their order. */
  lemma {:induction false} CountRespectsMultiset<T>(a: seq<T>, b: seq<T>, p: T -> bool)
    requires multiset(a) == multiset(b)
    ensures CountWhere(a, p) == CountWhere(b, p)
  {
    if a != [] {
      var n := |a| - 1;
      var x := a[n];
      var k := MatchLast(a, b);
      var b' := b[..k] + b[k + 1..];
      CountRespectsMultiset(a[..n], b', p);
      CountAppend(b[..k], [x], p);
      CountAppend(b[..k] + [x], b[k + 1..], p);
      CountAppend(b[..k], b[k + 1..], p);
    }
  }

  // ---------------------------------------------------------------- mapping and filtering

  lemma {:induction false} MapAppend<T, U>(a: seq<T>, b: seq<T>, f: T -> U)
    ensures MapSeq(a + b, f) == MapSeq(a, f) + MapSeq(b, f)
  {
    if b == [] {
      assert a + b == a;
    } else {
      var b' := b[..|b| - 1];
      assert (a + b)[..|a + b| - 1] == a + b';
      MapAppend(a, b', f);
    }
  }

  /** Two sequences of equal length count alike when their predicates agree position by position. */
  lemma {:induction false} CountPointwise<T, U>(a: seq<T>, b: seq<U>, p: T -> bool, q: U -> bool)
    requires |a| == |b|
    requires forall i :: 0 <= i < |a| ==> p(a[i]) == q(b[i])
    ensures CountWhere(a, p) == CountWhere(b, q)
  {
    if a != [] {
      CountPointwise(a[..|a| - 1], b[..|b| - 1], p, q);
    }
  }

  /** Mapping a reordering of the rows yields a reordering of the results. */
  lemma {:induction false} MapRespectsMultiset<T, U>(a: seq<T>, b: seq<T>, f: T -> U)
    requires multiset(a) == multiset(b)
    ensures multiset(MapSeq(a, f)) == multiset(MapSeq(b, f))
  {
    if a != [] {
      var n := |a| - 1;
      var x := a[n];
      var k := MatchLast(a, b);
      var b' := b[..k] + b[k + 1..];
      MapRespectsMultiset(a[..n], b', f);
      MapAppend(b[..k], [x], f);
      MapAppend(b[..k] + [x], b[k + 1..], f);
      MapAppend(b[..k], b[k + 1..], f);
      MapAppend(a[..n], [x], f);
    }
  }

  /** An element survives the filter exactly when it was there and satisfies `p`. */
  lemma {:induction false} FilterMembers<T>(s: seq<T>, p: T -> bool, x: T)
    ensures x in Filter(s, p) <==> x in s && p(x)
  {
    if s != [] {
      var n := |s| - 1;
      FilterMembers(s[..n], p, x);
      assert s == s[..n] + [s[n]];
    }
  }

  lemma {:induction false} FilterAppend<T>(a: seq<T>, b: seq<T>, p: T -> bool)
    ensures Filter(a + b, p) == Filter(a, p) + Filter(b, p)
  {
    if b == [] {
      assert a + b == a;
    } else {
      var b' := b[..|b| - 1];
      assert (a + b)[..|a + b| - 1] == a + b';
      FilterAppend(a, b', p);
    }
  }

  /** Filtering a reordering of the rows yields a reordering of the survivors. */
  lemma {:induction false} FilterRespectsMultiset<T>(a: seq<T>, b: seq<T>, p: T -> bool)
    requires multiset(a) == multiset(b)
    ensures multiset(Filter(a, p)) == multiset(Filter(b, p))
  {
    if a != [] {
      var n := |a| - 1;
      var x := a[n];
      var k := MatchLast(a, b);
      var b' := b[..k] + b[k + 1..];
      FilterRespectsMultiset(a[..n], b', p);
      FilterAppend(b[..k], [x], p);
      FilterAppend(b[..k] + [x], b[k + 1..], p);
      FilterAppend(b[..k], b[k + 1..], p);
      FilterAppend(a[..n], [x], p);
    }
  }

  /** The rows kept and the rows dropped by a filter together are exactly the rows given. */
  lemma {:induction false} FilterPartition<T>(s: seq<T>, p: T -> bool)
    ensures multiset(Filter(s, p)) + multiset(Filter(s, Not(p))) == multiset(s)
  {
    if s != [] {
      var n := |s| - 1;
      var x := s[n];
      FilterPartition(s[..n], p);
      assert s == s[..n] + [x];
      var kept, dropped := Filter(s[..n], p), Filter(s[..n], Not(p));
      assert s[..|s| - 1] == s[..n];
      assert Not(p)(x) == !p(x);
      if p(x) {
        assert Filter(s, p) == kept + [x];
        assert Filter(s, Not(p)) == dropped;
      } else {
        assert Filter(s, p) == kept;
        assert Filter(s, Not(p)) == dropped + [x];
      }
    }
  }

  /** Filtering keeps elements distinct. */
  lemma {:induction false} FilterDistinct<T>(s: seq<T>, p: T -> bool)
    requires Distinct(s)
    ensures Distinct(Filter(s, p))
  {
    if s != [] {
      var n := |s| - 1;
      FilterDistinct(s[..n], p);
      FilterMembers(s[..n], p, s[n]);
      assert s[n] !in s[..n];
    }
  }

  // ---------------------------------------------------------------- finite sets

  lemma IntervalSize(lo: int, hi: int)
    requires lo <= hi
    ensures |Interval(lo, hi)| == hi - lo
    decreases hi - lo
  {
    if lo < hi {
      IntervalSize(lo + 1, hi);
      assert lo !in Interval(lo + 1, hi);
    }
  }

  lemma SubsetSize<T>(a: set<T>, b: set<T>)
    requires a <= b
    ensures |a| <= |b|
    ensures |a| == |b| ==> a == b
  {
    assert b == a + (b - a);
    if |a| == |b| {
      assert |b - a| == 0;
    }
  }

  /** An injective image of a finite set has as many elements as the set. */
  lemma {:induction false} InjectiveImageSize<T, U>(a: set<T>, f: T -> U)
    requires forall x, y :: x in a && y in a && x != y ==> f(x) != f(y)
    ensures |Image(a, f)| == |a|
  {
    if a != {} {
      var x :| x in a;
      var a' := a - {x};
      InjectiveImageSize(a', f);
      var img := Image(a, f);
      var img' := Image(a', f);
      assert img == img' + {f(x)};
      assert f(x) !in img';
    }
  }
}
