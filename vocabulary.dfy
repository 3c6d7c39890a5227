/**
 Stage 5, the campaign vocabulary (get_campaign_nm_to_one_hot_index). The
 distinct campaign names of the frame, sorted ascending, are numbered 0 to
 V - 1. The vocabulary feeds the downstream model, not the feature records.
 */
module Vocabulary {
  import opened Seqs
  import opened Records
  import opened Strings

  predicate StrictlySorted(s: seq<string>) {
    forall i, k :: 0 <= i < k < |s| ==> LexLess(s[i], s[k])
  }

  /** Inserts `c` into a strictly sorted sequence, unless it is there already. */
  function Insert(s: seq<string>, c: string): (r: seq<string>)
    requires StrictlySorted(s)
    ensures StrictlySorted(r)
    ensures forall x :: x in r <==> x in s || x == c
  {
    if s == [] then [c]
    else if c == s[0] then s
    else if LexLess(c, s[0]) then
      InsertFront(s, c);
      [c] + s
    else
      LexTotal(c, s[0]);
      var tail := Insert(s[1..], c);
      assert forall x :: x in s <==> x == s[0] || x in s[1..] by {
        assert s == [s[0]] + s[1..];
      }
      InsertBehind(s[0], tail);
      [s[0]] + tail
  }

  lemma InsertFront(s: seq<string>, c: string)
    requires StrictlySorted(s) && s != [] && LexLess(c, s[0])
    ensures StrictlySorted([c] + s)
  {
    forall k | 0 < k < |s| ensures LexLess(c, s[k]) {
      LexTransitive(c, s[0], s[k]);
    }
  }

  lemma InsertBehind(head: string, tail: seq<string>)
    requires StrictlySorted(tail)
    requires forall x :: x in tail ==> LexLess(head, x)
    ensures StrictlySorted([head] + tail)
  {
    forall k | 0 <= k < |tail| ensures LexLess(head, tail[k]) {
      assert tail[k] in tail;
    }
  }

  /** The distinct names of `names`, sorted ascending. */
  function SortedDistinct(names: seq<string>): (r: seq<string>)
    ensures StrictlySorted(r)
    ensures forall x :: x in r <==> x in names
  {
    if names == [] then []
    else
      var n := |names| - 1;
      assert forall x :: x in names <==> x in names[..n] || x == names[n] by {
        assert names == names[..n] + [names[n]];
      }
      Insert(SortedDistinct(names[..n]), names[n])
  }

  /** A strictly sorted sequence is determined by its set of elements. */
  lemma {:induction false} SortedUnique(a: seq<string>, b: seq<string>)
    requires StrictlySorted(a) && StrictlySorted(b)
    requires forall x :: x in a <==> x in b
    ensures a == b
  {
    SameElementsBothEmpty(a, b);
    if a != [] && b != [] {
      if a[0] != b[0] {
        // Both heads are minimal, so each is below the other.
        assert b[0] in a;
        var i :| 0 <= i < |a| && a[i] == b[0];
        assert a[0] in b;
        var k :| 0 <= k < |b| && b[k] == a[0];
        assert LexLess(a[0], b[0]) && LexLess(b[0], a[0]);
        LexAsymmetric(a[0], b[0]);
        assert false;
      }
      forall x ensures x in a[1..] <==> x in b[1..] {
        assert a == [a[0]] + a[1..] && b == [b[0]] + b[1..];
        if x in a[1..] {
          var i :| 0 <= i < |a[1..]| && a[1..][i] == x;
          assert LexLess(a[0], x) by { assert a[0] == a[0] && x == a[i + 1]; }
          LexIrreflexive(x);
          assert x in b && x != b[0];
        }
        if x in b[1..] {
          var k :| 0 <= k < |b[1..]| && b[1..][k] == x;
          assert LexLess(b[0], x) by { assert x == b[k + 1]; }
          LexIrreflexive(x);
          assert x in a && x != a[0];
        }
      }
      SortedUnique(a[1..], b[1..]);
      assert a == [a[0]] + a[1..] && b == [b[0]] + b[1..];
    }
  }

  lemma SameElementsBothEmpty(a: seq<string>, b: seq<string>)
    requires forall x :: x in a <==> x in b
    ensures a == [] <==> b == []
  {
    if a != [] { assert a[0] in b; }
    if b != [] { assert b[0] in a; }
  }

  /** Each name mapped to its position in a strictly sorted sequence. */
  function IndexMap(sorted: seq<string>): (m: map<string, nat>)
    requires StrictlySorted(sorted)
    ensures forall c :: c in m <==> c in sorted
    ensures forall i :: 0 <= i < |sorted| ==> sorted[i] in m && m[sorted[i]] == i
  {
    forall i, k | 0 <= i < |sorted| && 0 <= k < |sorted| && i != k ensures sorted[i] != sorted[k] {
      if i < k { LexIrreflexive(sorted[i]); } else { LexIrreflexive(sorted[k]); }
    }
    map i | 0 <= i < |sorted| :: sorted[i] := i
  }

  function Campaign<J>(x: Indexed<J>): string {
    x.campaign
  }

  /** The campaign column of the frame. */
  function Campaigns<J>(s: seq<Indexed<J>>): seq<string> {
    MapSeq(s, Campaign)
  }

  /**
   The vocabulary: its names are exactly the campaigns of the frame, and it
   numbers them 0 to V - 1 in ascending order.
   */
  function GetCampaignNmToOneHotIndex<J>(s: seq<Indexed<J>>): (m: map<string, nat>)
    ensures forall c :: c in m <==> exists i :: 0 <= i < |s| && s[i].campaign == c
    ensures forall a, b :: a in m && b in m ==> (LexLess(a, b) <==> m[a] < m[b])
    ensures forall v :: v in m.Values <==> 0 <= v < |m|
  {
    var sorted := SortedDistinct(Campaigns(s));
    IndexMapSize(sorted);
    IndexMapOrder(sorted);
    IndexMapValues(sorted);
    CampaignsOccur(s);
    IndexMap(sorted)
  }

  lemma CampaignsOccur<J>(s: seq<Indexed<J>>)
    ensures forall c :: c in Campaigns(s) <==> exists i :: 0 <= i < |s| && s[i].campaign == c
  {
    forall c ensures c in Campaigns(s) <==> exists i :: 0 <= i < |s| && s[i].campaign == c {
      if c in Campaigns(s) {
        var i :| 0 <= i < |s| && Campaigns(s)[i] == c;
      }
      if exists i :: 0 <= i < |s| && s[i].campaign == c {
        var i :| 0 <= i < |s| && s[i].campaign == c;
        assert Campaigns(s)[i] == c;
      }
    }
  }

  /** Position `i` of `sorted`, as a function on positions. */
  function ElementAt(sorted: seq<string>): int -> string {
    i => if 0 <= i < |sorted| then sorted[i] else ""
  }

  /** The vocabulary has one entry per distinct name. */
  lemma IndexMapSize(sorted: seq<string>)
    requires StrictlySorted(sorted)
    ensures |IndexMap(sorted)| == |sorted|
  {
    var positions := Interval(0, |sorted|);
    forall i, k | i in positions && k in positions && i != k ensures ElementAt(sorted)(i) != ElementAt(sorted)(k) {
      if i < k { LexIrreflexive(sorted[i]); } else { LexIrreflexive(sorted[k]); }
    }
    InjectiveImageSize(positions, ElementAt(sorted));
    IntervalSize(0, |sorted|);
    IndexMapKeys(sorted);
  }

  /** The vocabulary's names are the image of the positions of `sorted`. */
  lemma IndexMapKeys(sorted: seq<string>)
    requires StrictlySorted(sorted)
    ensures IndexMap(sorted).Keys == Image(Interval(0, |sorted|), ElementAt(sorted))
  {
    var m := IndexMap(sorted);
    var img := Image(Interval(0, |sorted|), ElementAt(sorted));
    forall c | c in m.Keys ensures c in img {
      var i :| 0 <= i < |sorted| && sorted[i] == c;
      assert ElementAt(sorted)(i) == c;
    }
    forall c | c in img ensures c in m.Keys {
      var i :| i in Interval(0, |sorted|) && ElementAt(sorted)(i) == c;
    }
  }

  /** The vocabulary numbers names in ascending order. */
  lemma IndexMapOrder(sorted: seq<string>)
    requires StrictlySorted(sorted)
    ensures var m := IndexMap(sorted);
            forall a, b :: a in m && b in m ==> (LexLess(a, b) <==> m[a] < m[b])
  {
    var m := IndexMap(sorted);
    forall a, b | a in m && b in m ensures LexLess(a, b) <==> m[a] < m[b] {
      var i :| 0 <= i < |sorted| && sorted[i] == a;
      var k :| 0 <= k < |sorted| && sorted[k] == b;
      if i == k {
        LexIrreflexive(a);
      } else if k < i {
        LexAsymmetric(b, a);
      }
    }
  }

  /** The vocabulary's indices are exactly 0 to V - 1. */
  lemma IndexMapValues(sorted: seq<string>)
    requires StrictlySorted(sorted)
    ensures var m := IndexMap(sorted);
            forall v :: v in m.Values <==> 0 <= v < |sorted|
  {
    var m := IndexMap(sorted);
    forall v ensures v in m.Values <==> 0 <= v < |sorted| {
      if 0 <= v < |sorted| {
        assert sorted[v] in m && m[sorted[v]] == v;
      }
      if v in m.Values {
        var c :| c in m && m[c] == v;
        var i :| 0 <= i < |sorted| && sorted[i] == c;
      }
    }
  }

  /** The vocabulary depends only on which campaign names occur, not on row order or multiplicity. */
  lemma VocabularyOrderIndependent<J>(a: seq<Indexed<J>>, b: seq<Indexed<J>>)
    requires forall c :: c in Campaigns(a) <==> c in Campaigns(b)
    ensures GetCampaignNmToOneHotIndex(a) == GetCampaignNmToOneHotIndex(b)
  {
    SortedUnique(SortedDistinct(Campaigns(a)), SortedDistinct(Campaigns(b)));
  }
}
