/**
 The stages composed in pipeline order on the corrected journey key:
 segmentation, journey key, ranking and truncation give the normalized frame;
 the pivot and the labels are both taken from it and joined into the feature
 records.
 */
module Pipeline {
  import opened Seqs
  import opened Records
  import opened Segmentation
  import opened JourneyIds
  import opened Ranking
  import opened Truncation
  import opened Labels
  import opened Pivot
  import opened Join

  /** Segmentation followed by the corrected journey key. */
  function Keyed(events: seq<Touchpoint>): (r: seq<Journeyed<JourneyKey>>)
    requires DistinctTimesPerUser(events)
    ensures DistinctTimesPerJourney(r)
  {
    var r := CreateJourneyKeyField(CreateConversionIdField(events));
    assert forall i, k :: 0 <= i < |r| && 0 <= k < |r| && r[i].journeyId == r[k].journeyId ==>
      events[i].uid == events[k].uid && events[i].datetime == r[i].datetime && events[k].datetime == r[k].datetime;
    r
  }

  /** The keyed frame, ranked within journeys. */
  function Ranked(events: seq<Touchpoint>): seq<Indexed<JourneyKey>>
    requires DistinctTimesPerUser(events)
  {
    CreateCampaignIndexInJourneyField(Keyed(events))
  }

  /** The normalized frame: ranked, then cut to `maxLen` positions per journey. */
  function Normalized(events: seq<Touchpoint>, maxLen: nat): (r: seq<Indexed<JourneyKey>>)
    requires DistinctTimesPerUser(events)
    ensures WellIndexed(r)
  {
    RankedWellIndexed(Keyed(events));
    TruncationBounded(Ranked(events), maxLen, JourneyKey(0, 0));
    PadJourneyLength(Ranked(events), maxLen)
  }

  /**
   The feature records. Both join inputs come from the same frame, so every
   journey of the normalized frame gets exactly one record: its pivot columns
   and its label, with no journey lost to a key mismatch.
   */
  function Features(events: seq<Touchpoint>, maxLen: nat): (r: set<Feature<JourneyKey>>)
    requires DistinctTimesPerUser(events)
    ensures var norm := Normalized(events, maxLen);
            r == set j | j in Labels.JourneyIds(norm) :: Feature(j, Columns(norm, j, maxLen), HasConversion(norm, j))
  {
    var norm := Normalized(events, maxLen);
    JoinOfPivotAndLabels(norm, maxLen);
    JoinAtJourneyLevel(GetCampaignsAtJourneyLevel(norm, maxLen), GetConversionStatusAtJourneyLevel(norm))
  }

  /**
   Joining a frame's pivot with its own labels loses no journey and alters no
   label: the result has one record per journey of the frame.
   */
  lemma JoinOfPivotAndLabels<J>(s: seq<Indexed<J>>, maxLen: nat)
    ensures JoinAtJourneyLevel(GetCampaignsAtJourneyLevel(s, maxLen), GetConversionStatusAtJourneyLevel(s))
         == set j | j in Labels.JourneyIds(s) :: Feature(j, Columns(s, j, maxLen), HasConversion(s, j))
  {
    var left := GetCampaignsAtJourneyLevel(s, maxLen);
    var right := GetConversionStatusAtJourneyLevel(s);
    var joined := JoinAtJourneyLevel(left, right);
    var expected := set j | j in Labels.JourneyIds(s) :: Feature(j, Columns(s, j, maxLen), HasConversion(s, j));
    forall f | f in joined ensures f in expected {
      var j := f.journeyId;
      assert Label(j, f.conversionStatus) in right;
      assert Pivoted(j, f.campaigns) in left;
      assert Pivoted(j, Columns(s, j, maxLen)) in left;
    }
    forall j | j in Labels.JourneyIds(s) ensures Feature(j, Columns(s, j, maxLen), HasConversion(s, j)) in joined {
      assert Pivoted(j, Columns(s, j, maxLen)) in left;
      assert Label(j, HasConversion(s, j)) in right;
    }
  }

  /** Row `i` of the ranked frame is event `i`, keyed by its user and segment. */
  lemma RankedRow(events: seq<Touchpoint>, i: int)
    requires DistinctTimesPerUser(events) && 0 <= i < |events|
    ensures var r := Ranked(events);
            && |r| == |events|
            && r[i].journeyId == JourneyKey(events[i].uid, CreateConversionIdField(events)[i].conversionId)
            && r[i].conversion == events[i].conversion && r[i].campaign == events[i].campaign
  {
  }

  /** A journey's conversion is its last event: it holds the journey's last position. */
  lemma ConversionHoldsLastPosition(events: seq<Touchpoint>, i: int)
    requires DistinctTimesPerUser(events) && 0 <= i < |events| && events[i].conversion
    ensures var r := Ranked(events);
            r[i].campaignIndex == JourneyLength(r, r[i].journeyId)
  {
    var keyed := Keyed(events);
    var r := Ranked(events);
    var j := r[i].journeyId;
    var n := JourneyLength(r, j);
    IndexWithinJourney(keyed, i);
    PositionsContiguous(keyed, j);
    assert n in Positions(r, j);
    var k :| 0 <= k < |r| && r[k].journeyId == j && r[k].campaignIndex == n;
    var seg := CreateConversionIdField(events);
    assert events[k].uid == events[i].uid && seg[k].conversionId == seg[i].conversionId;
    ConversionEndsSegment(events, i, k);
    IndexOrdersByTime(keyed, i, k);
  }

  /**
   The label of a journey after truncation: it converts exactly when its
   segment is numbered 1 or more (it ends in a conversion) and it is no longer
   than `maxLen`. A converted journey longer than `maxLen` loses its
   conversion with the events past position `maxLen`, since the conversion is
   its last event.
   */
  lemma NormalizedLabel(events: seq<Touchpoint>, maxLen: nat, j: JourneyKey)
    requires DistinctTimesPerUser(events)
    requires j in Labels.JourneyIds(Ranked(events))
    ensures HasConversion(Normalized(events, maxLen), j)
        <==> j.conversionId >= 1 && JourneyLength(Ranked(events), j) <= maxLen
  {
    if HasConversion(Normalized(events, maxLen), j) {
      ConvertedJourneyFits(events, maxLen, j);
    }
    if j.conversionId >= 1 && JourneyLength(Ranked(events), j) <= maxLen {
      FittingJourneyConverts(events, maxLen, j);
    }
  }

  lemma ConvertedJourneyFits(events: seq<Touchpoint>, maxLen: nat, j: JourneyKey)
    requires DistinctTimesPerUser(events)
    requires HasConversion(Normalized(events, maxLen), j)
    ensures j.conversionId >= 1 && JourneyLength(Ranked(events), j) <= maxLen
  {
    var r := Ranked(events);
    var norm := Normalized(events, maxLen);
    var m :| 0 <= m < |norm| && norm[m].journeyId == j && norm[m].conversion;
    assert norm[m] in r && norm[m].campaignIndex <= maxLen;
    var i :| 0 <= i < |r| && r[i] == norm[m];
    ConvertedRowFits(events, i);
  }

  /** A converted row of the ranked frame belongs to a segment of 1 or more and holds its journey's last position. */
  lemma ConvertedRowFits(events: seq<Touchpoint>, i: int)
    requires DistinctTimesPerUser(events)
    requires 0 <= i < |Ranked(events)| && Ranked(events)[i].conversion
    ensures var r := Ranked(events);
            r[i].journeyId.conversionId >= 1 && r[i].campaignIndex == JourneyLength(r, r[i].journeyId)
  {
    RankedRow(events, i);
    ConversionIdOfConversion(events, i);
    ConversionHoldsLastPosition(events, i);
  }

  lemma FittingJourneyConverts(events: seq<Touchpoint>, maxLen: nat, j: JourneyKey)
    requires DistinctTimesPerUser(events)
    requires j in Labels.JourneyIds(Ranked(events))
    requires j.conversionId >= 1 && JourneyLength(Ranked(events), j) <= maxLen
    ensures HasConversion(Normalized(events, maxLen), j)
  {
    var r := Ranked(events);
    var x :| x in r && x.journeyId == j;
    var i :| 0 <= i < |r| && r[i] == x;
    var m := SegmentConversionRow(events, i);
    KeptConversion(events, maxLen, m);
  }

  /** A converted row within `maxLen` positions survives truncation and labels its journey. */
  lemma KeptConversion(events: seq<Touchpoint>, maxLen: nat, m: int)
    requires DistinctTimesPerUser(events)
    requires 0 <= m < |Ranked(events)| && Ranked(events)[m].conversion
    requires JourneyLength(Ranked(events), Ranked(events)[m].journeyId) <= maxLen
    ensures HasConversion(Normalized(events, maxLen), Ranked(events)[m].journeyId)
  {
    var r := Ranked(events);
    var norm := Normalized(events, maxLen);
    IndexWithinJourney(Keyed(events), m);
    TruncationKeepsExactly(r, maxLen, r[m]);
    var k :| 0 <= k < |norm| && norm[k] == r[m];
  }

  /** A journey of a segment numbered 1 or more has a converted row in the ranked frame. */
  lemma SegmentConversionRow(events: seq<Touchpoint>, i: int) returns (m: int)
    requires DistinctTimesPerUser(events)
    requires 0 <= i < |Ranked(events)| && Ranked(events)[i].journeyId.conversionId >= 1
    ensures var r := Ranked(events);
            0 <= m < |r| && r[m].journeyId == r[i].journeyId && r[m].conversion
  {
    var seg := CreateConversionIdField(events);
    RankedRow(events, i);
    SegmentHasConversion(events, i);
    m :| && 0 <= m < |events| && events[m].uid == events[i].uid && events[m].conversion
         && seg[m].conversionId == seg[i].conversionId;
    RankedRow(events, m);
  }

  /** A journey of segment 0 (events after the user's last conversion) is never labelled converted. */
  lemma SegmentZeroNeverConverts(events: seq<Touchpoint>, maxLen: nat, f: Feature<JourneyKey>)
    requires DistinctTimesPerUser(events)
    requires f in Features(events, maxLen) && f.journeyId.conversionId == 0
    ensures !f.conversionStatus
  {
    var norm := Normalized(events, maxLen);
    var j := f.journeyId;
    assert f == Feature(j, Columns(norm, j, maxLen), HasConversion(norm, j));
    var m :| m in norm && m.journeyId == j;
    assert m in Ranked(events);
    NormalizedLabel(events, maxLen, j);
  }

  /**
   The feature label of every record: converted exactly when the journey ends
   in a conversion and fits in `maxLen` positions.
   */
  lemma FeatureLabel(events: seq<Touchpoint>, maxLen: nat, f: Feature<JourneyKey>)
    requires DistinctTimesPerUser(events)
    requires f in Features(events, maxLen)
    ensures f.conversionStatus <==> f.journeyId.conversionId >= 1 && JourneyLength(Ranked(events), f.journeyId) <= maxLen
  {
    var norm := Normalized(events, maxLen);
    var j := f.journeyId;
    var m :| m in norm && m.journeyId == j;
    assert m in Ranked(events);
    NormalizedLabel(events, maxLen, j);
  }

  /** No touchpoints, no feature records. */
  lemma EmptyInput(maxLen: nat)
    ensures Features([], maxLen) == {}
  {
    assert Labels.JourneyIds(Normalized([], maxLen)) == {};
  }

  /**
   The first positional column of every feature record is filled: every
   journey of the normalized frame keeps its position-1 event when the
   maximum length is at least 1.
   */
  lemma FirstColumnFilled(events: seq<Touchpoint>, maxLen: nat, f: Feature<JourneyKey>)
    requires DistinctTimesPerUser(events) && maxLen >= 1
    requires f in Features(events, maxLen)
    ensures |f.campaigns| == maxLen && f.campaigns[0].Some?
  {
    var norm := Normalized(events, maxLen);
    var j := f.journeyId;
    assert f == Feature(j, Columns(norm, j, maxLen), HasConversion(norm, j));
    JourneyKeepsFirstPosition(events, maxLen, j);
  }

  /** A journey of the normalized frame still has its position-1 event. */
  lemma JourneyKeepsFirstPosition(events: seq<Touchpoint>, maxLen: nat, j: JourneyKey)
    requires DistinctTimesPerUser(events) && maxLen >= 1
    requires j in Labels.JourneyIds(Normalized(events, maxLen))
    ensures CampaignAt(Normalized(events, maxLen), j, 1).Some?
  {
    var norm := Normalized(events, maxLen);
    var x :| x in norm && x.journeyId == j;
    assert x.campaignIndex as int in Positions(norm, j);
    NormalizedPositions(Keyed(events), maxLen, j);
    assert 1 in Positions(norm, j);
    var y :| y in norm && y.journeyId == j && y.campaignIndex == 1;
    var k :| 0 <= k < |norm| && norm[k] == y;
  }
}
