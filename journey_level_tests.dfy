/**
 The journey-level stage tests of
 tests/feature_engineering/test_feature_engineering.py: vocabulary, labels,
 pivot and join, all run on the truncated frame of the truncation test, with
 each result proved equal to the expected value.
 */
module JourneyLevelTests {
  import opened Records
  import opened Strings
  import opened Vocabulary
  import Labels
  import opened Pivot
  import opened Join

  /** The INPUT frame of the vocabulary, label and pivot tests, row by row. */
  predicate NormalizedFrame(s: seq<Indexed<int>>) {
    && |s| == 5
    && s[0] == Indexed(10, false, "google", 1)
    && s[1] == Indexed(11, true, "display", 2)
    && s[2] == Indexed(11, false, "facebook", 1)
    && s[3] == Indexed(20, false, "facebook", 2)
    && s[4] == Indexed(20, false, "display", 1)
  }

  /** The journeys of the frame are 10, 11 and 20. */
  lemma FrameJourneys(s: seq<Indexed<int>>)
    requires NormalizedFrame(s)
    ensures Labels.JourneyIds(s) == {10, 11, 20}
  {
    forall j | j in Labels.JourneyIds(s) ensures j in {10, 11, 20} {
      var x :| x in s && x.journeyId == j;
      var i :| 0 <= i < |s| && s[i] == x;
    }
    assert s[0] in s && s[1] in s && s[3] in s;
  }

  /** Every row of the frame names display, facebook or google. */
  lemma RowCampaign(s: seq<Indexed<int>>, i: int)
    requires NormalizedFrame(s) && 0 <= i < |s|
    ensures s[i].campaign == "display" || s[i].campaign == "facebook" || s[i].campaign == "google"
  {
    assert i == 0 || i == 1 || i == 2 || i == 3 || i == 4;
  }

  /** The vocabulary holds display, facebook and google and no other name. */
  lemma FrameCampaigns(s: seq<Indexed<int>>)
    requires NormalizedFrame(s)
    ensures var m := GetCampaignNmToOneHotIndex(s);
            && "display" in m && "facebook" in m && "google" in m
            && forall c :: c in m ==> c == "display" || c == "facebook" || c == "google"
  {
    forall c | c in GetCampaignNmToOneHotIndex(s) ensures c == "display" || c == "facebook" || c == "google" {
      var i :| 0 <= i < |s| && s[i].campaign == c;
      RowCampaign(s, i);
    }
    assert s[0].campaign == "google" && s[1].campaign == "display" && s[2].campaign == "facebook";
  }

  /** The three names in ascending order. */
  lemma NamesAscending()
    ensures LexLess("display", "facebook") && LexLess("facebook", "google")
  {
  }

  /**
   An order-preserving numbering of three ascending names by 0 to 2 numbers
   them 0, 1 and 2.
   */
  lemma AscendingNumbering(m: map<string, nat>, a: string, b: string, c: string)
    requires a in m && b in m && c in m && forall x :: x in m ==> x == a || x == b || x == c
    requires LexLess(a, b) && LexLess(b, c)
    requires forall x, y :: x in m && y in m ==> (LexLess(x, y) <==> m[x] < m[y])
    requires forall v :: v in m.Values <==> 0 <= v < |m|
    ensures m == map[a := 0, b := 1, c := 2]
  {
    LexIrreflexive(a);
    LexIrreflexive(b);
    LexTransitive(a, b, c);
    LexIrreflexive(c);
    assert m.Keys == {a, b, c};
    assert |m.Keys| == 3;
    assert m[a] < m[b] < m[c];
    assert m[a] in m.Values && m[c] in m.Values;
  }

  /** get_campaign_nm_to_one_hot_index: the sorted names display, facebook, google get 0, 1, 2. */
  lemma TestGetCampaignNmToOneHotIndex(s: seq<Indexed<int>>)
    requires NormalizedFrame(s)
    ensures GetCampaignNmToOneHotIndex(s) == map["display" := 0, "facebook" := 1, "google" := 2]
  {
    FrameCampaigns(s);
    NamesAscending();
    VocabularyOfThree(s, "display", "facebook", "google");
  }

  /** A frame with three campaign names, in ascending order, numbers them 0, 1 and 2. */
  lemma VocabularyOfThree(s: seq<Indexed<int>>, a: string, b: string, c: string)
    requires var m := GetCampaignNmToOneHotIndex(s);
             a in m && b in m && c in m && forall x :: x in m ==> x == a || x == b || x == c
    requires LexLess(a, b) && LexLess(b, c)
    ensures GetCampaignNmToOneHotIndex(s) == map[a := 0, b := 1, c := 2]
  {
    AscendingNumbering(GetCampaignNmToOneHotIndex(s), a, b, c);
  }

  /** Only journey 11 holds a conversion. */
  lemma FrameConversions(s: seq<Indexed<int>>)
    requires NormalizedFrame(s)
    ensures !Labels.HasConversion(s, 10) && Labels.HasConversion(s, 11) && !Labels.HasConversion(s, 20)
  {
    assert s[1].journeyId == 11 && s[1].conversion;
  }

  /** get_conversion_status_at_journey_level: 10 is false, 11 is true, 20 is false. */
  lemma TestGetConversionStatusAtJourneyLevel(s: seq<Indexed<int>>)
    requires NormalizedFrame(s)
    ensures Labels.GetConversionStatusAtJourneyLevel(s) == {Label(10, false), Label(11, true), Label(20, false)}
  {
    FrameJourneys(s);
    FrameConversions(s);
  }

  /** The EXPECTED frame of the pivot test, which is also the left side of the join test. */
  function PivotedJourneys(): set<Pivoted<int>> {
    { Pivoted(10, [Some("google"), None]),
      Pivoted(11, [Some("facebook"), Some("display")]),
      Pivoted(20, [Some("display"), Some("facebook")]) }
  }

  /** A cell of the frame filled by row `k`, the only row at that journey and position. */
  lemma FrameCell(s: seq<Indexed<int>>, k: int)
    requires NormalizedFrame(s) && 0 <= k < |s|
    ensures CampaignAt(s, s[k].journeyId, s[k].campaignIndex) == Some(s[k].campaign)
  {
    var c := CampaignAt(s, s[k].journeyId, s[k].campaignIndex);
    assert c.Some?;
    var i :| 0 <= i < |s| && s[i].journeyId == s[k].journeyId && s[i].campaignIndex == s[k].campaignIndex
                        && s[i].campaign == c.value;
    assert i == 0 || i == 1 || i == 2 || i == 3 || i == 4;
    assert k == 0 || k == 1 || k == 2 || k == 3 || k == 4;
  }

  /** The cells of the frame at positions 1 and 2. */
  lemma FrameCells(s: seq<Indexed<int>>)
    requires NormalizedFrame(s)
    ensures && CampaignAt(s, 10, 1) == Some("google") && CampaignAt(s, 10, 2) == None
            && CampaignAt(s, 11, 1) == Some("facebook") && CampaignAt(s, 11, 2) == Some("display")
            && CampaignAt(s, 20, 1) == Some("display") && CampaignAt(s, 20, 2) == Some("facebook")
  {
    FrameCell(s, 0);
    FrameCell(s, 1);
    FrameCell(s, 2);
    FrameCell(s, 3);
    FrameCell(s, 4);
    forall i | 0 <= i < |s| ensures !(s[i].journeyId == 10 && s[i].campaignIndex == 2) {
      assert i == 0 || i == 1 || i == 2 || i == 3 || i == 4;
    }
  }

  /** The columns of each journey of the frame, two positions wide. */
  lemma FrameColumns(s: seq<Indexed<int>>)
    requires NormalizedFrame(s)
    ensures && Columns(s, 10, 2) == [Some("google"), None]
            && Columns(s, 11, 2) == [Some("facebook"), Some("display")]
            && Columns(s, 20, 2) == [Some("display"), Some("facebook")]
  {
    FrameCells(s);
    TwoColumns(s, 10, Some("google"), None);
    TwoColumns(s, 11, Some("facebook"), Some("display"));
    TwoColumns(s, 20, Some("display"), Some("facebook"));
  }

  /** Two columns hold the cells at positions 1 and 2. */
  lemma TwoColumns(s: seq<Indexed<int>>, j: int, first: Option<string>, second: Option<string>)
    requires CampaignAt(s, j, 1) == first && CampaignAt(s, j, 2) == second
    ensures Columns(s, j, 2) == [first, second]
  {
  }

  /** get_campaigns_at_journey_level with maximum length 2: journey 10 has one filled column. */
  lemma TestGetCampaignsAtJourneyLevel(s: seq<Indexed<int>>)
    requires NormalizedFrame(s)
    ensures GetCampaignsAtJourneyLevel(s, 2) == PivotedJourneys()
  {
    var r := GetCampaignsAtJourneyLevel(s, 2);
    FrameJourneys(s);
    FrameColumns(s);
    forall row | row in r ensures row in PivotedJourneys() {
      assert Pivoted(row.journeyId, Columns(s, row.journeyId, 2)) in r;
    }
    assert Pivoted(10, Columns(s, 10, 2)) in r;
    assert Pivoted(11, Columns(s, 11, 2)) in r;
    assert Pivoted(20, Columns(s, 20, 2)) in r;
  }

  /** The right side of the join test. */
  function JourneyLabels(): set<Label<int>> {
    {Label(10, false), Label(11, true), Label(20, false)}
  }

  /** Joining three rows with distinct journey ids to their three labels pairs them up. */
  lemma JoinThree<J>(p: seq<Pivoted<J>>, b: seq<Label<J>>)
    requires |p| == 3 && |b| == 3
    requires forall i :: 0 <= i < 3 ==> p[i].journeyId == b[i].journeyId
    requires p[0].journeyId != p[1].journeyId && p[0].journeyId != p[2].journeyId && p[1].journeyId != p[2].journeyId
    ensures JoinAtJourneyLevel({p[0], p[1], p[2]}, {b[0], b[1], b[2]})
         == { Feature(p[0].journeyId, p[0].campaigns, b[0].conversionStatus),
              Feature(p[1].journeyId, p[1].campaigns, b[1].conversionStatus),
              Feature(p[2].journeyId, p[2].campaigns, b[2].conversionStatus) }
  {
    var r := JoinAtJourneyLevel({p[0], p[1], p[2]}, {b[0], b[1], b[2]});
    forall f | f in r
      ensures f in { Feature(p[0].journeyId, p[0].campaigns, b[0].conversionStatus),
                     Feature(p[1].journeyId, p[1].campaigns, b[1].conversionStatus),
                     Feature(p[2].journeyId, p[2].campaigns, b[2].conversionStatus) }
    {
      assert Pivoted(f.journeyId, f.campaigns) in {p[0], p[1], p[2]};
      assert Label(f.journeyId, f.conversionStatus) in {b[0], b[1], b[2]};
    }
  }

  /** join_at_journey_level: each pivoted row gets its journey's label. */
  lemma TestJoinAtJourneyLevel()
    ensures JoinAtJourneyLevel(PivotedJourneys(), JourneyLabels())
         == { Feature(10, [Some("google"), None], false),
              Feature(11, [Some("facebook"), Some("display")], true),
              Feature(20, [Some("display"), Some("facebook")], false) }
  {
    JoinThree([ Pivoted(10, [Some("google"), None]),
                Pivoted(11, [Some("facebook"), Some("display")]),
                Pivoted(20, [Some("display"), Some("facebook")]) ],
              [Label(10, false), Label(11, true), Label(20, false)]);
  }
}
