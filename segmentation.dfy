/**
 Stage 1, conversion segmentation (create_conversion_id_field). Within each
 user, events are scanned from the most recent backwards and every event gets
 the inclusive running count of conversions seen so far: the events after the
 user's last conversion get 0, the last conversion and the events before it
 back to the previous conversion get 1, and so on.
 */
module Segmentation {
  import opened Seqs
  import opened Records

  /** No two events of one user share a timestamp (the scan order is then total). */
  predicate DistinctTimesPerUser(s: seq<Touchpoint>) {
    forall i, k :: 0 <= i < |s| && 0 <= k < |s| && i != k && s[i].uid == s[k].uid ==>
      s[i].datetime != s[k].datetime
  }

  /** The conversions of user `uid` at or after time `t`. */
  function ConversionsSince(s: seq<Touchpoint>, uid: int, t: int): nat {
    CountWhere(s, (f: Touchpoint) => f.uid == uid && f.conversion && f.datetime >= t)
  }

  /** The conversions of user `uid` at a time in [lo, hi). */
  function ConversionsBetween(s: seq<Touchpoint>, uid: int, lo: int, hi: int): nat {
    CountWhere(s, (f: Touchpoint) => f.uid == uid && f.conversion && lo <= f.datetime < hi)
  }

  /** The conversions-since count is the size of any set listing exactly their positions. */
  lemma SinceByIndices(s: seq<Touchpoint>, uid: int, t: int, positions: set<int>)
    requires forall i :: i in positions ==> 0 <= i < |s|
    requires forall i :: 0 <= i < |s| ==> (s[i].uid == uid && s[i].conversion && s[i].datetime >= t <==> i in positions)
    ensures ConversionsSince(s, uid, t) == |positions|
  {
    CountByIndices(s, (f: Touchpoint) => f.uid == uid && f.conversion && f.datetime >= t, positions);
  }

  /** The running count reached when the backward scan of `e`'s user arrives at `e`. */
  function ConversionId(s: seq<Touchpoint>, e: Touchpoint): nat {
    ConversionsSince(s, e.uid, e.datetime)
  }

  function WithConversionId(s: seq<Touchpoint>, e: Touchpoint): Segmented {
    Segmented(e.uid, e.conversion, e.datetime, e.campaign, ConversionId(s, e))
  }

  /** Adds column conversion_id to every row; the other columns are unchanged. */
  function CreateConversionIdField(s: seq<Touchpoint>): (r: seq<Segmented>)
    requires DistinctTimesPerUser(s)
    ensures |r| == |s|
    ensures forall i :: 0 <= i < |s| ==>
      && r[i].uid == s[i].uid && r[i].conversion == s[i].conversion
      && r[i].datetime == s[i].datetime && r[i].campaign == s[i].campaign
      && r[i].conversionId == ConversionsSince(s, s[i].uid, s[i].datetime)
  {
    MapSeq(s, e => WithConversionId(s, e))
  }

  /** The conversions since `lo` are those since `hi` plus those in [lo, hi). */
  lemma {:induction false} ConversionsSinceSplit(s: seq<Touchpoint>, uid: int, lo: int, hi: int)
    requires lo <= hi
    ensures ConversionsSince(s, uid, lo) == ConversionsSince(s, uid, hi) + ConversionsBetween(s, uid, lo, hi)
  {
    if s != [] {
      ConversionsSinceSplit(s[..|s| - 1], uid, lo, hi);
    }
  }

  /** Between two events of one user, the segment ids differ by the conversions in [earlier, later). */
  lemma ConversionIdDifference(s: seq<Touchpoint>, i: int, k: int)
    requires DistinctTimesPerUser(s)
    requires 0 <= i < |s| && 0 <= k < |s|
    requires s[i].uid == s[k].uid && s[i].datetime <= s[k].datetime
    ensures CreateConversionIdField(s)[i].conversionId
         == CreateConversionIdField(s)[k].conversionId
          + ConversionsBetween(s, s[i].uid, s[i].datetime, s[k].datetime)
  {
    ConversionsSinceSplit(s, s[i].uid, s[i].datetime, s[k].datetime);
  }

  /** Segment ids are non-decreasing as time goes backwards within a user. */
  lemma ConversionIdMonotone(s: seq<Touchpoint>, i: int, k: int)
    requires DistinctTimesPerUser(s)
    requires 0 <= i < |s| && 0 <= k < |s|
    requires s[i].uid == s[k].uid && s[i].datetime <= s[k].datetime
    ensures CreateConversionIdField(s)[i].conversionId >= CreateConversionIdField(s)[k].conversionId
  {
    ConversionIdDifference(s, i, k);
  }

  /** Two events of one user share a segment exactly when no conversion lies in [earlier, later). */
  lemma SameSegmentIff(s: seq<Touchpoint>, i: int, k: int)
    requires DistinctTimesPerUser(s)
    requires 0 <= i < |s| && 0 <= k < |s|
    requires s[i].uid == s[k].uid && s[i].datetime <= s[k].datetime
    ensures CreateConversionIdField(s)[i].conversionId == CreateConversionIdField(s)[k].conversionId
        <==> forall m :: 0 <= m < |s| && s[m].uid == s[i].uid && s[m].conversion ==>
               !(s[i].datetime <= s[m].datetime < s[k].datetime)
  {
    ConversionIdDifference(s, i, k);
  }

  /** Segment 0 holds exactly the events after the user's last conversion. */
  lemma ConversionIdZeroIff(s: seq<Touchpoint>, i: int)
    requires DistinctTimesPerUser(s)
    requires 0 <= i < |s|
    ensures CreateConversionIdField(s)[i].conversionId == 0
        <==> forall m :: 0 <= m < |s| && s[m].uid == s[i].uid && s[m].conversion ==>
               s[m].datetime < s[i].datetime
  {
  }

  /** A user without conversions has all events in segment 0. */
  lemma NoConversionsAllZero(s: seq<Touchpoint>, uid: int)
    requires DistinctTimesPerUser(s)
    requires forall m :: 0 <= m < |s| && s[m].uid == uid ==> !s[m].conversion
    ensures forall i :: 0 <= i < |s| && s[i].uid == uid ==> CreateConversionIdField(s)[i].conversionId == 0
  {
  }

  /** A conversion starts a segment of its own: it is counted, so its id is at least 1. */
  lemma ConversionIdOfConversion(s: seq<Touchpoint>, i: int)
    requires DistinctTimesPerUser(s)
    requires 0 <= i < |s| && s[i].conversion
    ensures CreateConversionIdField(s)[i].conversionId >= 1
  {
    assert ((f: Touchpoint) => f.uid == s[i].uid && f.conversion && f.datetime >= s[i].datetime)(s[i]);
  }

  /**
   A conversion is the latest event of its segment, and no segment of a user
   holds two conversions.
   */
  lemma ConversionEndsSegment(s: seq<Touchpoint>, i: int, k: int)
    requires DistinctTimesPerUser(s)
    requires 0 <= i < |s| && 0 <= k < |s| && s[i].conversion && s[i].uid == s[k].uid
    requires CreateConversionIdField(s)[i].conversionId == CreateConversionIdField(s)[k].conversionId
    ensures s[k].datetime <= s[i].datetime
    ensures s[k].conversion ==> k == i
  {
    if s[i].datetime < s[k].datetime {
      SameSegmentIff(s, i, k);
      assert false;
    }
    if s[k].conversion && k != i {
      assert s[k].datetime < s[i].datetime;
      SameSegmentIff(s, k, i);
      assert false;
    }
  }

  /** The earliest conversion of user `uid` at or after time `t`, when there is one. */
  lemma {:induction false} EarliestConversionSince(s: seq<Touchpoint>, uid: int, t: int) returns (m: int)
    requires ConversionsSince(s, uid, t) >= 1
    ensures 0 <= m < |s| && s[m].uid == uid && s[m].conversion && s[m].datetime >= t
    ensures forall k :: 0 <= k < |s| && s[k].uid == uid && s[k].conversion && s[k].datetime >= t ==>
      s[m].datetime <= s[k].datetime
  {
    var n := |s| - 1;
    var init := s[..n];
    assert forall k :: 0 <= k < n ==> s[k] == init[k];
    if ConversionsSince(init, uid, t) >= 1 {
      var m' := EarliestConversionSince(init, uid, t);
      if s[n].uid == uid && s[n].conversion && s[n].datetime >= t && s[n].datetime < s[m'].datetime {
        m := n;
      } else {
        m := m';
      }
    } else {
      m := n;
    }
  }

  /**
   Every segment numbered 1 or more holds a conversion, no earlier than any
   of its events: the conversion that closes it.
   */
  lemma SegmentHasConversion(s: seq<Touchpoint>, i: int)
    requires DistinctTimesPerUser(s)
    requires 0 <= i < |s| && CreateConversionIdField(s)[i].conversionId >= 1
    ensures exists m :: && 0 <= m < |s| && s[m].uid == s[i].uid && s[m].conversion
                        && s[i].datetime <= s[m].datetime
                        && CreateConversionIdField(s)[m].conversionId == CreateConversionIdField(s)[i].conversionId
  {
    var m := EarliestConversionSince(s, s[i].uid, s[i].datetime);
    SameSegmentIff(s, i, m);
  }

  /** Reordering the input rows only reorders the output rows. */
  lemma SegmentationOrderIndependent(a: seq<Touchpoint>, b: seq<Touchpoint>)
    requires DistinctTimesPerUser(a) && DistinctTimesPerUser(b)
    requires multiset(a) == multiset(b)
    ensures multiset(CreateConversionIdField(a)) == multiset(CreateConversionIdField(b))
  {
    var fa := e => WithConversionId(a, e);
    var fb := e => WithConversionId(b, e);
    forall e: Touchpoint ensures fa(e) == fb(e) {
      CountRespectsMultiset(a, b,
        (f: Touchpoint) => f.uid == e.uid && f.conversion && f.datetime >= e.datetime);
    }
    MapRespectsMultiset(a, b, fa);
    assert MapSeq(b, fa) == MapSeq(b, fb);
  }
}
