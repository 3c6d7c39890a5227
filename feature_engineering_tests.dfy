/**
 The input and expected output of each stage test of
 tests/feature_engineering/test_feature_engineering.py, with the stage's
 result proved equal to the expected frame (and hence equal under the
 suite's set comparison). Timestamps are seconds since 1970-01-01 00:00:00,
 so "1970-01-01 01:03:42" is 3822.
 */
module FeatureEngineeringTests {
  import opened Seqs
  import opened Records
  import opened Comparison
  import opened Segmentation
  import opened JourneyIds
  import opened Ranking
  import opened Truncation

  /** The INPUT frame of the segmentation test, row by row: user 1 converts once, user 2 never. */
  predicate RawEventsFrame(s: seq<Touchpoint>) {
    && |s| == 6
    && s[0] == Touchpoint(1, false, 3822, "google")
    && s[1] == Touchpoint(1, true, 3789, "display")
    && s[2] == Touchpoint(1, false, 3745, "facebook")
    && s[3] == Touchpoint(2, false, 3767, "google")
    && s[4] == Touchpoint(2, false, 3745, "facebook")
    && s[5] == Touchpoint(2, false, 3688, "display")
  }

  /** The EXPECTED frame of the segmentation test. */
  function SegmentedEvents(): seq<Segmented> {
    [ Segmented(1, false, 3822, "google", 0),
      Segmented(1, true, 3789, "display", 1),
      Segmented(1, false, 3745, "facebook", 1),
      Segmented(2, false, 3767, "google", 0),
      Segmented(2, false, 3745, "facebook", 0),
      Segmented(2, false, 3688, "display", 0) ]
  }

  /** The running conversion counts the backward scan reaches at each raw event. */
  lemma RawEventCounts(s: seq<Touchpoint>)
    requires RawEventsFrame(s)
    ensures && ConversionsSince(s, 1, 3822) == 0 && ConversionsSince(s, 1, 3789) == 1
            && ConversionsSince(s, 1, 3745) == 1 && ConversionsSince(s, 2, 3767) == 0
            && ConversionsSince(s, 2, 3745) == 0 && ConversionsSince(s, 2, 3688) == 0
  {
    SinceByIndices(s, 1, 3822, {});
    SinceByIndices(s, 1, 3789, {1});
    SinceByIndices(s, 1, 3745, {1});
    SinceByIndices(s, 2, 3767, {});
    SinceByIndices(s, 2, 3745, {});
    SinceByIndices(s, 2, 3688, {});
  }

  /** create_conversion_id_field: user 1's segments are 0, 1, 1 and user 2's are all 0. */
  lemma TestCreateConversionIdField(s: seq<Touchpoint>)
    requires RawEventsFrame(s)
    ensures DistinctTimesPerUser(s)
    ensures CreateConversionIdField(s) == SegmentedEvents()
    ensures DataEqual(SegmentedEvents(), CreateConversionIdField(s))
  {
    RawEventsDistinctTimes(s);
    RawEventCounts(s);
  }

  /** The segmentation test's frame has no timestamp ties within a user. */
  lemma RawEventsDistinctTimes(s: seq<Touchpoint>)
    requires RawEventsFrame(s)
    ensures DistinctTimesPerUser(s)
  {
  }

  function JourneyedEvents(): seq<Journeyed<int>> {
    [ Journeyed(false, 3822, "google", 10),
      Journeyed(true, 3789, "display", 11),
      Journeyed(false, 3745, "facebook", 11),
      Journeyed(false, 3767, "google", 20),
      Journeyed(false, 3745, "facebook", 20),
      Journeyed(false, 3688, "display", 20) ]
  }

  /** create_journey_id_field: ids 10, 11, 11, 20, 20, 20; uid and conversion_id are gone. */
  lemma TestCreateJourneyIdField()
    ensures CreateJourneyIdField(SegmentedEvents()) == JourneyedEvents()
    ensures DataEqual(JourneyedEvents(), CreateJourneyIdField(SegmentedEvents()))
  {
  }

  function RankedEvents(): seq<Indexed<int>> {
    [ Indexed(10, false, "google", 1),
      Indexed(11, true, "display", 2),
      Indexed(11, false, "facebook", 1),
      Indexed(20, false, "google", 3),
      Indexed(20, false, "facebook", 2),
      Indexed(20, false, "display", 1) ]
  }

  /** The INPUT frame of the ranking test, row by row. */
  predicate JourneyedFrame(s: seq<Journeyed<int>>) {
    && |s| == 6
    && s[0] == Journeyed(false, 3822, "google", 10)
    && s[1] == Journeyed(true, 3789, "display", 11)
    && s[2] == Journeyed(false, 3745, "facebook", 11)
    && s[3] == Journeyed(false, 3767, "google", 20)
    && s[4] == Journeyed(false, 3745, "facebook", 20)
    && s[5] == Journeyed(false, 3688, "display", 20)
  }

  /** The earlier events of its own journey, for each journeyed event. */
  lemma JourneyedEventRanks(s: seq<Journeyed<int>>)
    requires JourneyedFrame(s)
    ensures && EarlierInJourney(s, 10, 3822) == 0 && EarlierInJourney(s, 11, 3789) == 1
            && EarlierInJourney(s, 11, 3745) == 0 && EarlierInJourney(s, 20, 3767) == 2
            && EarlierInJourney(s, 20, 3745) == 1 && EarlierInJourney(s, 20, 3688) == 0
  {
    EarlierByIndices(s, 10, 3822, {});
    EarlierByIndices(s, 11, 3789, {2});
    EarlierByIndices(s, 11, 3745, {});
    EarlierByIndices(s, 20, 3767, {4, 5});
    EarlierByIndices(s, 20, 3745, {5});
    EarlierByIndices(s, 20, 3688, {});
  }

  /** create_campaign_index_in_journey_field: positions by ascending time, datetime gone. */
  lemma TestCreateCampaignIndexInJourneyField(s: seq<Journeyed<int>>)
    requires JourneyedFrame(s)
    ensures DistinctTimesPerJourney(s)
    ensures CreateCampaignIndexInJourneyField(s) == RankedEvents()
    ensures DataEqual(RankedEvents(), CreateCampaignIndexInJourneyField(s))
  {
    JourneyedDistinctTimes(s);
    JourneyedEventRanks(s);
  }

  /** The ranking test's frame has no timestamp ties within a journey. */
  lemma JourneyedDistinctTimes(s: seq<Journeyed<int>>)
    requires JourneyedFrame(s)
    ensures DistinctTimesPerJourney(s)
  {
  }

  /** The truncated frame all later stage tests start from. */
  function NormalizedEvents(): seq<Indexed<int>> {
    [ Indexed(10, false, "google", 1),
      Indexed(11, true, "display", 2),
      Indexed(11, false, "facebook", 1),
      Indexed(20, false, "facebook", 2),
      Indexed(20, false, "display", 1) ]
  }

  /** The INPUT frame of the truncation test, row by row. */
  predicate RankedFrame(s: seq<Indexed<int>>) {
    && |s| == 6
    && s[0] == Indexed(10, false, "google", 1)
    && s[1] == Indexed(11, true, "display", 2)
    && s[2] == Indexed(11, false, "facebook", 1)
    && s[3] == Indexed(20, false, "google", 3)
    && s[4] == Indexed(20, false, "facebook", 2)
    && s[5] == Indexed(20, false, "display", 1)
  }

  /** pad_journey_length with maximum length 2: journey 20 loses google at position 3. */
  lemma TestPadJourneyLength(s: seq<Indexed<int>>)
    requires RankedFrame(s)
    ensures PadJourneyLength(s, 2) == NormalizedEvents()
    ensures DataEqual(NormalizedEvents(), PadJourneyLength(s, 2))
  {
    RankedFrameTruncation(s);
  }

  /** Of the six ranked rows, only row 3 (position 3) is past the maximum length 2. */
  lemma RankedFrameTruncation(s: seq<Indexed<int>>)
    requires RankedFrame(s)
    ensures PadJourneyLength(s, 2) == [s[0], s[1], s[2], s[4], s[5]]
  {
    var keep := WithinLength<int>(2);
    assert s == [s[0], s[1], s[2]] + [s[3], s[4], s[5]];
    FilterAppend([s[0], s[1], s[2]], [s[3], s[4], s[5]], keep);
    FilterThree(s[0], s[1], s[2], keep);
    FilterThree(s[3], s[4], s[5], keep);
  }

  /** Filtering three rows, one at a time. */
  lemma FilterThree<T>(a: T, b: T, c: T, p: T -> bool)
    ensures Filter([a, b, c], p)
         == (if p(a) then [a] else []) + (if p(b) then [b] else []) + (if p(c) then [c] else [])
  {
    assert [a, b, c][..2] == [a, b] && [a, b][..1] == [a] && [a][..0] == [];
  }
}
