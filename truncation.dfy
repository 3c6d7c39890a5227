/**
 Stage 4, truncation (pad_journey_length). Only the rows whose position is at
 most the maximum journey length survive; nothing is added. The padding to a
 fixed width happens later, in the pivot, as empty columns.
 */
module Truncation {
  import opened Seqs
  import opened Records
  import opened Ranking

  /** Whether a row's position is within the maximum length. */
  function WithinLength<J>(maxLen: nat): Indexed<J> -> bool {
    (x: Indexed<J>) => x.campaignIndex <= maxLen
  }

  /** Keeps the rows at positions 1 to `maxLen`, in their original order. */
  function PadJourneyLength<J>(s: seq<Indexed<J>>, maxLen: nat): (r: seq<Indexed<J>>)
    ensures |r| <= |s|
    ensures forall i :: 0 <= i < |r| ==> r[i] in s && r[i].campaignIndex <= maxLen
  {
    Filter(s, WithinLength(maxLen))
  }

  /** The rows that truncation drops. */
  function Overflow<J>(s: seq<Indexed<J>>, maxLen: nat): seq<Indexed<J>> {
    Filter(s, Not(WithinLength(maxLen)))
  }

  /** A row survives exactly when it was there and its position is at most `maxLen`. */
  lemma TruncationKeepsExactly<J>(s: seq<Indexed<J>>, maxLen: nat, x: Indexed<J>)
    ensures x in PadJourneyLength(s, maxLen) <==> x in s && x.campaignIndex <= maxLen
  {
    FilterMembers(s, WithinLength(maxLen), x);
  }

  /** The surviving and the dropped rows together are the input rows: nothing is added or altered. */
  lemma TruncationPartition<J>(s: seq<Indexed<J>>, maxLen: nat)
    ensures multiset(PadJourneyLength(s, maxLen)) + multiset(Overflow(s, maxLen)) == multiset(s)
    ensures multiset(PadJourneyLength(s, maxLen)) <= multiset(s)
  {
    FilterPartition(s, WithinLength(maxLen));
  }

  /** A well-indexed frame stays well indexed, and every journey keeps at most `maxLen` rows. */
  lemma TruncationBounded<J>(s: seq<Indexed<J>>, maxLen: nat, j: J)
    requires WellIndexed(s)
    ensures WellIndexed(PadJourneyLength(s, maxLen))
    ensures JourneyLength(PadJourneyLength(s, maxLen), j) <= maxLen
  {
    var r := PadJourneyLength(s, maxLen);
    FilterDistinct(s, WithinLength(maxLen));
    forall x | x in r ensures x in s {
      TruncationKeepsExactly(s, maxLen, x);
    }
    PositionsCount(r, j);
    forall p | p in Positions(r, j) ensures p in Interval(1, maxLen + 1) {
      var x :| x in r && x.journeyId == j && x.campaignIndex == p;
      TruncationKeepsExactly(s, maxLen, x);
    }
    IntervalSize(1, maxLen + 1);
    SubsetSize(Positions(r, j), Interval(1, maxLen + 1));
  }

  /**
   After ranking and truncation, a journey of n events occupies exactly
   positions 1 to min(n, maxLen): short journeys pass through whole, long ones
   keep their earliest `maxLen` events.
   */
  lemma NormalizedPositions<J>(s: seq<Journeyed<J>>, maxLen: nat, j: J)
    requires DistinctTimesPerJourney(s)
    ensures var ranked := CreateCampaignIndexInJourneyField(s);
            var n := JourneyLength(ranked, j);
            Positions(PadJourneyLength(ranked, maxLen), j)
              == Interval(1, (if n <= maxLen then n else maxLen) + 1)
  {
    var ranked := CreateCampaignIndexInJourneyField(s);
    var r := PadJourneyLength(ranked, maxLen);
    var n := JourneyLength(ranked, j);
    PositionsContiguous(s, j);
    forall p ensures p in Positions(r, j) <==> p in Positions(ranked, j) && p <= maxLen {
      if p in Positions(r, j) {
        var x :| x in r && x.journeyId == j && x.campaignIndex == p;
        TruncationKeepsExactly(ranked, maxLen, x);
      }
      if p in Positions(ranked, j) && p <= maxLen {
        var x :| x in ranked && x.journeyId == j && x.campaignIndex == p;
        TruncationKeepsExactly(ranked, maxLen, x);
      }
    }
  }

  /** A journey no longer than `maxLen` loses none of its rows. */
  lemma ShortJourneyUnchanged<J>(s: seq<Journeyed<J>>, maxLen: nat, i: int)
    requires DistinctTimesPerJourney(s)
    requires 0 <= i < |s|
    requires JourneyLength(CreateCampaignIndexInJourneyField(s), s[i].journeyId) <= maxLen
    ensures CreateCampaignIndexInJourneyField(s)[i]
              in PadJourneyLength(CreateCampaignIndexInJourneyField(s), maxLen)
  {
    var ranked := CreateCampaignIndexInJourneyField(s);
    IndexWithinJourney(s, i);
    TruncationKeepsExactly(ranked, maxLen, ranked[i]);
  }

  /** Reordering the input rows only reorders the output rows. */
  lemma TruncationOrderIndependent<J>(a: seq<Indexed<J>>, b: seq<Indexed<J>>, maxLen: nat)
    requires multiset(a) == multiset(b)
    ensures multiset(PadJourneyLength(a, maxLen)) == multiset(PadJourneyLength(b, maxLen))
  {
    FilterRespectsMultiset(a, b, WithinLength(maxLen));
  }
}
