/**
 Stage 3, within-journey ranking (create_campaign_index_in_journey_field).
 Every event gets its 1-based rank by ascending time among the events of its
 journey; datetime is dropped. The notions of journey length, the set of
 positions a journey occupies and a well-indexed frame, used by the later
 stages, are defined here.
 */
module Ranking {
  import opened Seqs
  import opened Records

  /** No two events of one journey share a timestamp (the rank order is then total). */
  predicate DistinctTimesPerJourney<J(==)>(s: seq<Journeyed<J>>) {
    forall i, k :: 0 <= i < |s| && 0 <= k < |s| && i != k && s[i].journeyId == s[k].journeyId ==>
      s[i].datetime != s[k].datetime
  }

  /** The events of journey `j` strictly before time `t`. */
  function EarlierInJourney<J(==)>(s: seq<Journeyed<J>>, j: J, t: int): nat {
    CountWhere(s, (f: Journeyed<J>) => f.journeyId == j && f.datetime < t)
  }

  function WithIndex<J(==)>(s: seq<Journeyed<J>>, e: Journeyed<J>): Indexed<J> {
    Indexed(e.journeyId, e.conversion, e.campaign, 1 + EarlierInJourney(s, e.journeyId, e.datetime))
  }

  /** Replaces datetime by column campaign_index_in_journey; the other columns are unchanged. */
  function CreateCampaignIndexInJourneyField<J(==)>(s: seq<Journeyed<J>>): (r: seq<Indexed<J>>)
    requires DistinctTimesPerJourney(s)
    ensures |r| == |s|
    ensures forall i :: 0 <= i < |s| ==>
      && r[i].journeyId == s[i].journeyId && r[i].conversion == s[i].conversion
      && r[i].campaign == s[i].campaign
      && r[i].campaignIndex == 1 + EarlierInJourney(s, s[i].journeyId, s[i].datetime)
  {
    MapSeq(s, e => WithIndex(s, e))
  }

  /** The earlier-event count is the size of any set listing exactly the earlier events' positions. */
  lemma EarlierByIndices<J>(s: seq<Journeyed<J>>, j: J, t: int, positions: set<int>)
    requires forall i :: i in positions ==> 0 <= i < |s|
    requires forall i :: 0 <= i < |s| ==> (s[i].journeyId == j && s[i].datetime < t <==> i in positions)
    ensures EarlierInJourney(s, j, t) == |positions|
  {
    CountByIndices(s, (f: Journeyed<J>) => f.journeyId == j && f.datetime < t, positions);
  }

  /** The number of rows of journey `j`. */
  function JourneyLength<J(==)>(s: seq<Indexed<J>>, j: J): nat {
    CountWhere(s, (x: Indexed<J>) => x.journeyId == j)
  }

  /** The positions the rows of journey `j` occupy. */
  function Positions<J(==)>(s: seq<Indexed<J>>, j: J): set<int> {
    set x | x in s && x.journeyId == j :: x.campaignIndex as int
  }

  /**
   No row twice, positions start at 1, and no two rows of one journey share a
   position.
   */
  predicate WellIndexed<J(==)>(s: seq<Indexed<J>>) {
    && Distinct(s)
    && (forall x :: x in s ==> x.campaignIndex >= 1)
    && (forall x, y :: x in s && y in s && x.journeyId == y.journeyId && x.campaignIndex == y.campaignIndex ==> x == y)
  }

  /** Within a journey, positions follow time: an earlier event has a smaller position. */
  lemma IndexOrdersByTime<J>(s: seq<Journeyed<J>>, i: int, k: int)
    requires DistinctTimesPerJourney(s)
    requires 0 <= i < |s| && 0 <= k < |s| && s[i].journeyId == s[k].journeyId
    ensures var r := CreateCampaignIndexInJourneyField(s);
            r[i].campaignIndex < r[k].campaignIndex <==> s[i].datetime < s[k].datetime
  {
    var j := s[i].journeyId;
    if s[i].datetime < s[k].datetime {
      CountStrict(s, (f: Journeyed<J>) => f.journeyId == j && f.datetime < s[i].datetime,
                     (f: Journeyed<J>) => f.journeyId == j && f.datetime < s[k].datetime, i);
    } else if s[k].datetime < s[i].datetime {
      CountStrict(s, (f: Journeyed<J>) => f.journeyId == j && f.datetime < s[k].datetime,
                     (f: Journeyed<J>) => f.journeyId == j && f.datetime < s[i].datetime, k);
    } else {
      assert i == k;
    }
  }

  /** The journey of a row has as many rows after ranking as before. */
  lemma RankedJourneyLength<J>(s: seq<Journeyed<J>>, j: J)
    requires DistinctTimesPerJourney(s)
    ensures JourneyLength(CreateCampaignIndexInJourneyField(s), j)
         == CountWhere(s, (f: Journeyed<J>) => f.journeyId == j)
  {
    CountPointwise(CreateCampaignIndexInJourneyField(s), s,
                   (x: Indexed<J>) => x.journeyId == j, (f: Journeyed<J>) => f.journeyId == j);
  }

  /** Every position lies between 1 and the length of its journey. */
  lemma IndexWithinJourney<J>(s: seq<Journeyed<J>>, i: int)
    requires DistinctTimesPerJourney(s)
    requires 0 <= i < |s|
    ensures var r := CreateCampaignIndexInJourneyField(s);
            1 <= r[i].campaignIndex <= JourneyLength(r, r[i].journeyId)
  {
    var j := s[i].journeyId;
    CountStrict(s, (f: Journeyed<J>) => f.journeyId == j && f.datetime < s[i].datetime,
                   (f: Journeyed<J>) => f.journeyId == j, i);
    RankedJourneyLength(s, j);
  }

  /** The ranked frame is well indexed. */
  lemma RankedWellIndexed<J>(s: seq<Journeyed<J>>)
    requires DistinctTimesPerJourney(s)
    ensures WellIndexed(CreateCampaignIndexInJourneyField(s))
  {
    var r := CreateCampaignIndexInJourneyField(s);
    forall i, k | 0 <= i < k < |r| ensures r[i] != r[k] {
      if r[i].journeyId == r[k].journeyId {
        IndexOrdersByTime(s, i, k);
        IndexOrdersByTime(s, k, i);
      }
    }
    forall x, y | x in r && y in r && x.journeyId == y.journeyId && x.campaignIndex == y.campaignIndex
      ensures x == y
    {
      var i :| 0 <= i < |r| && r[i] == x;
      var k :| 0 <= k < |r| && r[k] == y;
      IndexOrdersByTime(s, i, k);
      IndexOrdersByTime(s, k, i);
    }
  }

  /** In a well-indexed frame a journey occupies as many positions as it has rows. */
  lemma PositionsCount<J>(r: seq<Indexed<J>>, j: J)
    requires WellIndexed(r)
    ensures |Positions(r, j)| == JourneyLength(r, j)
  {
    var inJourney := (x: Indexed<J>) => x.journeyId == j;
    var rows := IndexSet(r, inJourney);
    var f := (i: int) => if 0 <= i < |r| then r[i].campaignIndex as int else 0;
    CountIsIndexSetSize(r, inJourney);
    forall i, k | i in rows && k in rows && i != k ensures f(i) != f(k) {
      if i < k { assert r[i] != r[k]; } else { assert r[k] != r[i]; }
    }
    InjectiveImageSize(rows, f);
    CountCongruent(r, inJourney, (x: Indexed<J>) => x.journeyId == j);
    var image := Image(rows, f);
    forall p | p in Positions(r, j) ensures p in image {
      var x :| x in r && x.journeyId == j && x.campaignIndex == p;
      var i :| 0 <= i < |r| && r[i] == x;
      assert i in rows;
    }
    assert image == Positions(r, j);
  }

  /** The positions of a journey of n events are exactly 1, ..., n. */
  lemma PositionsContiguous<J>(s: seq<Journeyed<J>>, j: J)
    requires DistinctTimesPerJourney(s)
    ensures var r := CreateCampaignIndexInJourneyField(s);
            Positions(r, j) == Interval(1, JourneyLength(r, j) + 1)
  {
    var r := CreateCampaignIndexInJourneyField(s);
    var n := JourneyLength(r, j);
    RankedWellIndexed(s);
    PositionsCount(r, j);
    forall p | p in Positions(r, j) ensures p in Interval(1, n + 1) {
      var i :| 0 <= i < |r| && r[i].journeyId == j && r[i].campaignIndex == p;
      IndexWithinJourney(s, i);
    }
    IntervalSize(1, n + 1);
    SubsetSize(Positions(r, j), Interval(1, n + 1));
  }

  /** Reordering the input rows only reorders the output rows. */
  lemma RankingOrderIndependent<J>(a: seq<Journeyed<J>>, b: seq<Journeyed<J>>)
    requires DistinctTimesPerJourney(a) && DistinctTimesPerJourney(b)
    requires multiset(a) == multiset(b)
    ensures multiset(CreateCampaignIndexInJourneyField(a)) == multiset(CreateCampaignIndexInJourneyField(b))
  {
    var fa := e => WithIndex(a, e);
    var fb := e => WithIndex(b, e);
    forall e: Journeyed<J> ensures fa(e) == fb(e) {
      CountRespectsMultiset(a, b, (f: Journeyed<J>) => f.journeyId == e.journeyId && f.datetime < e.datetime);
    }
    MapRespectsMultiset(a, b, fa);
    assert MapSeq(b, fa) == MapSeq(b, fb);
  }
}
