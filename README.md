# DNAMTA feature pipeline, modelled in Dafny

This project models the feature-engineering pipeline of DNAMTA, a deep
multi-touch marketing-attribution model. The pipeline turns raw touchpoints
into fixed-width journey records, each with a conversion label. Every
touchpoint has a user id, a conversion flag, a timestamp and a campaign name.
The eight stages run in this order:

1. `create_conversion_id_field` gives each event its segment number,
   `conversion_id`. Scanning one user's events from the latest back, this is
   the running count of conversions seen so far, the event itself included.
2. `create_journey_id_field` combines user and segment into one integer
   `journey_id`. The test pins only (1, 0) -> 10, (1, 1) -> 11 and
   (2, 0) -> 20. The model reconstructs this as `10 * uid + conversion_id`.
   Decimal concatenation of the two numbers also fits these three values.
3. `create_campaign_index_in_journey_field` numbers each journey's events
   1, 2, ... by ascending time.
4. `pad_journey_length` keeps only the events at positions 1 to `JOURNEY_MAX_LEN`.
5. `get_campaign_nm_to_one_hot_index` numbers the distinct campaign names
   0 to V - 1 in ascending order.
6. `get_conversion_status_at_journey_level` gives each journey one label:
   true when any of its events converts.
7. `get_campaigns_at_journey_level` pivots each journey into `JOURNEY_MAX_LEN`
   positional columns. A column is empty (`None`) where the journey is shorter.
8. `join_at_journey_level` inner-joins the pivoted rows with the labels on `journey_id`.

The implementation module `deep_attribution/feature_engineering/feature_engineering.py`
is not part of this model. Each stage is reconstructed from its test in
`tests/feature_engineering/test_feature_engineering.py`, which fixes the
stage with a complete input and expected output. Each test is reproduced as
a lemma that proves the stage maps the test's input to its expected frame.

The suite compares frames as sets of rows (`check_dataframes_data_are_equal`).
The model therefore does two things:
- States stages 5 to 8 as sets and maps.
- Keeps stages 1 to 4 as row-wise maps and filters over sequences. It proves
  that they depend only on the multiset of their input rows, so their output
  order carries no meaning.

Modules, in pipeline order:

- `Records`: one datatype per frame schema.
- `Seqs`: counting, filtering and mapping over sequences, with multiset facts.
- `Strings`: Python's order on `str`.
- `Segmentation`: stage 1.
- `JourneyIds`: stage 2, both as published and with a collision-free key.
- `Ranking`: stage 3.
- `Truncation`: stage 4.
- `Vocabulary`: stage 5.
- `Labels`: stage 6.
- `Pivot`: stage 7.
- `Join`: stage 8.
- `Comparison`: the suite's data comparison.
- `Pipeline`: the stages composed on the collision-free key.
- `FeatureEngineeringTests` and `JourneyLevelTests`: the eight stage tests.

The later stages are generic in the journey-id type. This lets the stage
tests (integer ids) and the composed pipeline (`JourneyKey`, the user and
segment pair) share one definition of each stage.

One consequence of the stage order is proved in `Pipeline.NormalizedLabel`.
The conversion is always the last event of its journey, and truncation runs
before labelling. A converted journey longer than `JOURNEY_MAX_LEN` therefore
loses its conversion along with its late events, and it reaches the model
labelled as not converted.

## Model

| member | source | states |
|---|---|---|
| Segmentation.CreateConversionIdField | tests/feature_engineering/test_feature_engineering.py:29-72 | Only column conversion_id is added. It counts the user's conversions at or after the event's own time: the inclusive running count of a latest-first scan. |
| Segmentation.ConversionIdDifference | tests/feature_engineering/test_feature_engineering.py:29-72 | Between two events of one user, the segment ids differ by the number of conversions in between. |
| Segmentation.ConversionIdMonotone | tests/feature_engineering/test_feature_engineering.py:29-72 | Segment ids never decrease as time goes back. |
| Segmentation.SameSegmentIff | tests/feature_engineering/test_feature_engineering.py:29-72 | Two events of one user share a segment exactly when no conversion lies in between. |
| Segmentation.ConversionIdZeroIff | tests/feature_engineering/test_feature_engineering.py:29-72 | An event is in segment 0 exactly when every conversion of its user happens before it. |
| Segmentation.NoConversionsAllZero | tests/feature_engineering/test_feature_engineering.py:29-72 | A user with no conversion has segment 0 on every event. |
| Segmentation.ConversionIdOfConversion | tests/feature_engineering/test_feature_engineering.py:29-72 | A conversion event is in segment 1 or higher. |
| Segmentation.ConversionEndsSegment | tests/feature_engineering/test_feature_engineering.py:29-72 | A conversion is the latest event of its segment, and the only conversion in it. |
| Segmentation.SegmentHasConversion | tests/feature_engineering/test_feature_engineering.py:29-72 | Every segment numbered 1 or more contains a conversion of its user, at or after each of its events. |
| Segmentation.EarliestConversionSince | tests/feature_engineering/test_feature_engineering.py:29-72 | When a user converts at or after time t, there is an earliest such conversion. |
| Segmentation.SegmentationOrderIndependent | tests/feature_engineering/test_feature_engineering.py:29-72 | Reordering the input rows only reorders the output rows. |
| JourneyIds.CreateJourneyIdField | tests/feature_engineering/test_feature_engineering.py:95-116 | Each row's journey id is the packed id of its user and segment; uid and conversion_id are dropped; conversion, datetime and campaign are unchanged. |
| JourneyIds.PackedStageDecodes | tests/feature_engineering/test_feature_engineering.py:95-116 | While a row's segment id is at most 9, the stage's journey id decodes back to that row's user and segment. |
| JourneyIds.UnpackJourneyId | tests/feature_engineering/test_feature_engineering.py:95-116 | Decoding a packed id gives a user and a single-digit segment that pack back to the same id. |
| JourneyIds.PackRoundTrip | tests/feature_engineering/test_feature_engineering.py:95-116 | Decoding inverts the packing exactly when the segment id is at most 9. |
| JourneyIds.PackInjectiveBelowTen | tests/feature_engineering/test_feature_engineering.py:95-116 | For segment ids up to 9, two packed ids are equal iff their user and segment pairs are equal. |
| JourneyIds.PackCollides | tests/feature_engineering/test_feature_engineering.py:95-116 | Segment 10 or above of one user packs to the id of a segment of the next user. |
| JourneyIds.PackedIdsMergeUsers | tests/feature_engineering/test_feature_engineering.py:95-116 | A concrete frame where the published stage gives events of users 1 and 2 the same journey id 20. |
| JourneyIds.CreateJourneyKeyField | tests/feature_engineering/test_feature_engineering.py:95-116 | The corrected stage: the journey id is the user and segment pair, and the other columns are unchanged. |
| JourneyIds.JourneyKeyInjective | tests/feature_engineering/test_feature_engineering.py:95-116 | Under the corrected key, two rows share a journey iff they share user and segment. |
| JourneyIds.JourneyIdsOrderIndependent | tests/feature_engineering/test_feature_engineering.py:95-116 | Both forms of the stage map reorderings of the input to reorderings of the output. |
| Ranking.CreateCampaignIndexInJourneyField | tests/feature_engineering/test_feature_engineering.py:121-159 | datetime is dropped, the other columns are unchanged, and each position is 1 plus the number of earlier events of the same journey. |
| Ranking.IndexOrdersByTime | tests/feature_engineering/test_feature_engineering.py:121-159 | Within a journey, one position is smaller than another exactly when its event is earlier. |
| Ranking.RankedJourneyLength | tests/feature_engineering/test_feature_engineering.py:121-159 | Ranking keeps the number of rows of every journey. |
| Ranking.IndexWithinJourney | tests/feature_engineering/test_feature_engineering.py:121-159 | Every position lies between 1 and the length of its journey. |
| Ranking.RankedWellIndexed | tests/feature_engineering/test_feature_engineering.py:121-159 | The result has distinct rows and positions from 1, and no two rows of one journey share a position. |
| Ranking.PositionsCount | tests/feature_engineering/test_feature_engineering.py:121-159 | In a well-indexed frame, a journey occupies as many positions as it has rows. |
| Ranking.PositionsContiguous | tests/feature_engineering/test_feature_engineering.py:121-159 | A journey of n events occupies exactly positions 1 to n, with no gap. |
| Ranking.RankingOrderIndependent | tests/feature_engineering/test_feature_engineering.py:121-159 | Reordering the input rows only reorders the output rows. |
| Truncation.PadJourneyLength | tests/feature_engineering/test_feature_engineering.py:165-205 | The result is no longer than the input, and each row is an input row at a position no greater than the maximum length. |
| Truncation.TruncationKeepsExactly | tests/feature_engineering/test_feature_engineering.py:165-205 | A row survives iff it is an input row at a position no greater than the maximum length. |
| Truncation.TruncationPartition | tests/feature_engineering/test_feature_engineering.py:165-205 | The kept rows and the dropped rows, as multisets, add up to the input: nothing is added or altered. |
| Truncation.TruncationBounded | tests/feature_engineering/test_feature_engineering.py:165-205 | A well-indexed frame stays well indexed, and every journey keeps at most the maximum length of rows. |
| Truncation.NormalizedPositions | tests/feature_engineering/test_feature_engineering.py:165-205 | After ranking and truncation, a journey of n events occupies positions 1 to min(n, maximum length). |
| Truncation.ShortJourneyUnchanged | tests/feature_engineering/test_feature_engineering.py:165-205 | A journey no longer than the maximum loses no row. |
| Truncation.TruncationOrderIndependent | tests/feature_engineering/test_feature_engineering.py:165-205 | Reordering the input rows only reorders the output rows. |
| Vocabulary.Insert | tests/feature_engineering/test_feature_engineering.py:210-234 | Inserting into a strictly ascending name list keeps it strictly ascending and adds exactly the new name. |
| Vocabulary.SortedDistinct | tests/feature_engineering/test_feature_engineering.py:210-234 | The distinct names are strictly ascending, and exactly the names given. |
| Vocabulary.SortedUnique | tests/feature_engineering/test_feature_engineering.py:210-234 | Two strictly ascending lists with the same names are equal. |
| Vocabulary.IndexMap | tests/feature_engineering/test_feature_engineering.py:210-234 | Each name of an ascending list is mapped to its position in the list. |
| Vocabulary.GetCampaignNmToOneHotIndex | tests/feature_engineering/test_feature_engineering.py:210-234 | The keys are exactly the frame's campaign names. Index order agrees with name order, and the indices are exactly 0 to V - 1: a bijection onto [0, V). |
| Vocabulary.VocabularyOrderIndependent | tests/feature_engineering/test_feature_engineering.py:210-234 | The vocabulary depends only on which names occur, not on row order or multiplicity. |
| Labels.ConversionByJourney | tests/feature_engineering/test_feature_engineering.py:240-272 | The flag OR-ed over each journey's rows: one key per journey, true iff one of its rows converts. |
| Labels.GetConversionStatusAtJourneyLevel | tests/feature_engineering/test_feature_engineering.py:240-272 | One label per journey of the frame, true iff one of its rows converts, with no other rows and no repeated journey. |
| Labels.LabelsOrderIndependent | tests/feature_engineering/test_feature_engineering.py:240-272 | The labels depend only on the set of rows. |
| Pivot.CampaignAt | tests/feature_engineering/test_feature_engineering.py:277-312 | A cell holds the campaign of a row of that journey and position, and is empty iff there is no such row. |
| Pivot.GetCampaignsAtJourneyLevel | tests/feature_engineering/test_feature_engineering.py:277-312 | One row per journey of the frame, of exactly the maximum length in columns, and no journey repeated. |
| Pivot.PivotCell | tests/feature_engineering/test_feature_engineering.py:277-312 | In a well-indexed frame, column i holds campaign c iff the frame has the journey's row at position i + 1 with campaign c. It is empty iff the frame has no such row. |
| Pivot.PivotRoundTrip | tests/feature_engineering/test_feature_engineering.py:277-312 | Reading the filled cells back out of the pivot gives exactly the frame's (journey, position, campaign) triples within the width. |
| Pivot.PivotOrderIndependent | tests/feature_engineering/test_feature_engineering.py:277-312 | The pivot of a well-indexed frame depends only on the set of rows. |
| Join.JoinAtJourneyLevel | tests/feature_engineering/test_feature_engineering.py:317-360 | Every output row combines a pivoted row and a label of the same journey, both unchanged, and every such pair gives an output row. |
| Join.JoinOneRowPerKey | tests/feature_engineering/test_feature_engineering.py:317-360 | With unique keys on both sides there is one row per journey id present on both sides, and it carries that pivot's columns and that label's status unchanged. |
| Pipeline.Keyed | tests/feature_engineering/test_feature_engineering.py:95-116 | Segmenting and keying by (user, segment) leaves no timestamp tie within a journey. |
| Pipeline.Normalized | tests/feature_engineering/test_feature_engineering.py:165-205 | The ranked and truncated frame is well indexed. |
| Pipeline.JoinOfPivotAndLabels | tests/feature_engineering/test_feature_engineering.py:317-360 | Joining a frame's pivot with its own labels gives one record per journey, with its columns and its label, and loses no journey. |
| Pipeline.Features | tests/feature_engineering/test_feature_engineering.py:317-360 | The feature records are exactly one per journey of the normalized frame, with its positional columns and its label. |
| Pipeline.RankedRow | tests/feature_engineering/test_feature_engineering.py:121-159 | Row i of the ranked frame is event i, keyed by its user and segment. |
| Pipeline.ConversionHoldsLastPosition | tests/feature_engineering/test_feature_engineering.py:121-159 | A conversion holds the last position of its journey. |
| Pipeline.NormalizedLabel | tests/feature_engineering/test_feature_engineering.py:240-272 | A journey's label after truncation is true iff its segment is 1 or more and its length is at most the maximum. |
| Pipeline.FeatureLabel | tests/feature_engineering/test_feature_engineering.py:317-360 | A feature record is labelled converted iff its journey ends in a conversion and fits in the maximum length. |
| Pipeline.SegmentZeroNeverConverts | tests/feature_engineering/test_feature_engineering.py:317-360 | A journey of segment 0, the events after a user's last conversion, is never labelled converted. |
| Pipeline.FirstColumnFilled | tests/feature_engineering/test_feature_engineering.py:300-305 | With a maximum length of at least 1, every feature record has its first positional column filled, as the non-nullable first column of the expected schema demands. |
| Pipeline.EmptyInput | tests/feature_engineering/test_feature_engineering.py:317-360 | No touchpoints give no feature records. |
| Comparison.DataEqual | tests/feature_engineering/test_feature_engineering.py:378-383 | Two frames compare equal iff every row of each occurs in the other. |
| Comparison.DataEqualReflexive | tests/feature_engineering/test_feature_engineering.py:378-383 | Every frame compares equal to itself. |
| Comparison.DataEqualSymmetric | tests/feature_engineering/test_feature_engineering.py:378-383 | The comparison is symmetric. |
| Comparison.DataEqualTransitive | tests/feature_engineering/test_feature_engineering.py:378-383 | The comparison is transitive. |
| Comparison.PermutationDataEqual | tests/feature_engineering/test_feature_engineering.py:378-383 | A reordering of a frame compares equal to it. |
| Comparison.DuplicatesUndetected | tests/feature_engineering/test_feature_engineering.py:378-383 | A frame compares equal to its doubling, although the two differ as multisets. |
| FeatureEngineeringTests.TestCreateConversionIdField | tests/feature_engineering/test_feature_engineering.py:27-72 | On the test input, user 1's segment ids are 0, 1, 1 and user 2's are all 0. The result equals the expected frame, and so compares equal to it. |
| FeatureEngineeringTests.TestCreateJourneyIdField | tests/feature_engineering/test_feature_engineering.py:75-116 | The ids are 10, 11, 11, 20, 20, 20, with uid and conversion_id gone. |
| FeatureEngineeringTests.TestCreateCampaignIndexInJourneyField | tests/feature_engineering/test_feature_engineering.py:119-159 | The positions are 1, 2, 1, 3, 2, 1, with datetime gone. |
| FeatureEngineeringTests.TestPadJourneyLength | tests/feature_engineering/test_feature_engineering.py:163-205 | With maximum length 2, only journey 20's google at position 3 is dropped. |
| JourneyLevelTests.TestGetCampaignNmToOneHotIndex | tests/feature_engineering/test_feature_engineering.py:208-234 | The vocabulary is exactly {display: 0, facebook: 1, google: 2}. |
| JourneyLevelTests.TestGetConversionStatusAtJourneyLevel | tests/feature_engineering/test_feature_engineering.py:238-272 | The labels are exactly 10 false, 11 true and 20 false. |
| JourneyLevelTests.TestGetCampaignsAtJourneyLevel | tests/feature_engineering/test_feature_engineering.py:275-312 | With maximum length 2, journey 10 is (google, None), 11 is (facebook, display) and 20 is (display, facebook). |
| JourneyLevelTests.TestJoinAtJourneyLevel | tests/feature_engineering/test_feature_engineering.py:315-360 | Each of the three pivoted rows is joined with its journey's label, and nothing else is produced. |

## Left out

- Spark session creation and the `PYSPARK_*` environment set-up (lines 8 and 22-25) are engine plumbing.
- The schema comparison `check_dataframes_schema_are_equal` (lines 366-375) compares column types and nullability, not data. Each record datatype lists the columns its stage produces, but not their types or order.
- Column order: the suite compares collected rows as tuples, so the column order of each expected frame matters there. The records use named fields and do not model it.
- Timestamp parsing (`to_datetime`, lines 363-364): timestamps are whole seconds since 1970-01-01 00:00:00, so "1970-01-01 01:03:42" is 3822.
- Segmentation.CreateConversionIdField: requires distinct timestamps within a user. No test exercises a tie, so no tie order is assumed.
- Ranking.CreateCampaignIndexInJourneyField: requires distinct timestamps within a journey, for the same reason.
- Distributed and partitioned execution of the window, group-by, pivot and join steps is engine behaviour; only the logical result is modelled.
- The downstream attribution model that consumes the vocabulary and the feature records is outside the pipeline.
- Stages 1 to 4 return rows in input order, which is one admissible order. The suite leaves the order open; the `...OrderIndependent` lemmas show the order changes nothing else.
- JourneyIds.CreateJourneyIdField: integer width is not modelled. The test schemas declare uid, conversion_id, journey_id and campaign_index_in_journey as 32-bit `IntegerType`, but the model uses unbounded integers. `10 * uid + conversion_id` therefore never overflows here, whereas in the source it leaves the 32-bit range for uid >= 214748365, and then either wraps or raises. The packed-id results (`PackRoundTrip`, `PackInjectiveBelowTen`, `PackCollides`, `PackedIdsMergeUsers`) hold only while the values fit in 32 bits. Outside that range, wrap-around is a second, unmodelled way for packed ids to collide.
- JourneyIds.PackJourneyId: the packing formula is a reconstruction. Decimal concatenation (`int(str(uid) + str(conversion_id))`) matches the three pinned ids just as well, and it is not modelled. Under it, the input in the finding gives 110 rather than 20 to user 1's segment 10. Its collisions are different, for example (1, 10) with (11, 0).
- Pipeline.Features: composes the stages on the collision-free key `JourneyKey` rather than on the packed integer id. The packed stage is modelled in `JourneyIds`, and its test is reproduced on it.

## Findings

| source | as written | input that shows it | evidently intended | confidence | as-written member | corrected member |
|---|---|---|---|---|---|---|
| tests/feature_engineering/test_feature_engineering.py:95-116 | The journey id packs user and segment into one integer; the test pins (1,0) -> 10, (1,1) -> 11, (2,0) -> 20, reconstructed here as 10 * uid + conversion_id. | User 1 with an event at time 0 followed by ten conversions, and user 2 with one event. User 1's first event is in segment 10 and gets id 20, the id of user 2's journey, so two users' events merge into one journey. | The journey id identifies the (user, segment) pair. | not executed | JourneyIds.CreateJourneyIdField (collision shown by JourneyIds.PackedIdsMergeUsers and JourneyIds.PackCollides) | JourneyIds.CreateJourneyKeyField (injectivity proved by JourneyIds.JourneyKeyInjective), used by Pipeline |

The published test pins the packed ids 10, 11 and 20, so the published stage
is modelled as packing under the reconstruction 10 * uid + conversion_id.
The decimal-concatenation alternative collides too, on different inputs:
(1, 10) and (11, 0) both give 110. The composed pipeline uses the
corrected key.
