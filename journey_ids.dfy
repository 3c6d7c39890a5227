/**
 Stage 2, journey id derivation (create_journey_id_field). The published
 pipeline packs user and segment into one integer, 10 * uid + conversion_id,
 which is injective only while conversion_id stays below 10. The corrected
 stage keeps the (user, segment) pair itself as the journey id; the rest of
 the pipeline is written for any journey id type and is run on that key.
 */
module JourneyIds {
  import opened Seqs
  import opened Records
  import Segmentation

  /** The packed id of the published pipeline: 1,0 -> 10; 1,1 -> 11; 2,0 -> 20. */
  function PackJourneyId(uid: int, conversionId: nat): int {
    10 * uid + conversionId
  }

  function PackedRow(e: Segmented): Journeyed<int> {
    Journeyed(e.conversion, e.datetime, e.campaign, PackJourneyId(e.uid, e.conversionId))
  }

  /** The stage as published: uid and conversion_id are replaced by the packed id. */
  function CreateJourneyIdField(s: seq<Segmented>): (r: seq<Journeyed<int>>)
    ensures |r| == |s|
    ensures forall i :: 0 <= i < |s| ==>
      && r[i].conversion == s[i].conversion && r[i].datetime == s[i].datetime
      && r[i].campaign == s[i].campaign
      && r[i].journeyId == PackJourneyId(s[i].uid, s[i].conversionId)
  {
    MapSeq(s, PackedRow)
  }

  /**
   While a row's segment id is below ten, its packed journey id decodes back
   to the row's own user and segment.
   */
  lemma PackedStageDecodes(s: seq<Segmented>, i: int)
    requires 0 <= i < |s| && s[i].conversionId <= 9
    ensures UnpackJourneyId(CreateJourneyIdField(s)[i].journeyId) == (s[i].uid, s[i].conversionId)
  {
    PackRoundTrip(s[i].uid, s[i].conversionId);
  }

  /** While segment ids stay below ten, packed ids identify (user, segment) pairs. */
  lemma PackInjectiveBelowTen(u1: int, c1: nat, u2: int, c2: nat)
    requires c1 <= 9 && c2 <= 9
    ensures PackJourneyId(u1, c1) == PackJourneyId(u2, c2) <==> u1 == u2 && c1 == c2
  {
    PackRoundTrip(u1, c1);
    PackRoundTrip(u2, c2);
  }

  /** Reads user and segment back out of a packed id, assuming a single-digit segment. */
  function UnpackJourneyId(id: int): (r: (int, nat))
    ensures 0 <= r.1 <= 9 && PackJourneyId(r.0, r.1) == id
  {
    (id / 10, id % 10)
  }

  /** Unpacking inverts packing exactly while the segment id is below ten. */
  lemma PackRoundTrip(uid: int, conversionId: nat)
    ensures UnpackJourneyId(PackJourneyId(uid, conversionId)) == (uid, conversionId) <==> conversionId <= 9
  {
    var id := PackJourneyId(uid, conversionId);
    if conversionId <= 9 {
      assert id / 10 == uid && id % 10 == conversionId by {
        assert id == uid * 10 + conversionId;
      }
    }
  }

  /** From segment 10 on, a user's segment shares its packed id with the next user's segment 0. */
  lemma PackCollides(uid: int, conversionId: nat)
    requires conversionId >= 10
    ensures PackJourneyId(uid, conversionId) == PackJourneyId(uid + 1, conversionId - 10)
  {
  }

  function KeyedRow(e: Segmented): Journeyed<JourneyKey> {
    Journeyed(e.conversion, e.datetime, e.campaign, JourneyKey(e.uid, e.conversionId))
  }

  /** The corrected stage: the journey id is the (user, segment) pair, so it never merges users. */
  function CreateJourneyKeyField(s: seq<Segmented>): (r: seq<Journeyed<JourneyKey>>)
    ensures |r| == |s|
    ensures forall i :: 0 <= i < |s| ==>
      && r[i].conversion == s[i].conversion && r[i].datetime == s[i].datetime
      && r[i].campaign == s[i].campaign
      && r[i].journeyId.uid == s[i].uid && r[i].journeyId.conversionId == s[i].conversionId
  {
    MapSeq(s, KeyedRow)
  }

  /** Two rows share a corrected journey id exactly when they share user and segment. */
  lemma JourneyKeyInjective(s: seq<Segmented>, i: int, k: int)
    requires 0 <= i < |s| && 0 <= k < |s|
    ensures CreateJourneyKeyField(s)[i].journeyId == CreateJourneyKeyField(s)[k].journeyId
        <==> s[i].uid == s[k].uid && s[i].conversionId == s[k].conversionId
  {
  }

  /** Reordering the input rows only reorders the output rows, for both versions of the stage. */
  lemma JourneyIdsOrderIndependent(a: seq<Segmented>, b: seq<Segmented>)
    requires multiset(a) == multiset(b)
    ensures multiset(CreateJourneyIdField(a)) == multiset(CreateJourneyIdField(b))
    ensures multiset(CreateJourneyKeyField(a)) == multiset(CreateJourneyKeyField(b))
  {
    MapRespectsMultiset(a, b, PackedRow);
    MapRespectsMultiset(a, b, KeyedRow);
  }

  /**
   An input on which the published stage merges two users into one journey:
   user 1 converts ten times, so its earliest event lands in segment 10 and
   gets id 20, the id of user 2's open segment.
   */
  lemma PackedIdsMergeUsers()
    ensures var events := UserOneTenConversions() + [Touchpoint(2, false, 5, "facebook")];
            && Segmentation.DistinctTimesPerUser(events)
            && var packed := CreateJourneyIdField(Segmentation.CreateConversionIdField(events));
               && packed[0].journeyId == packed[11].journeyId == 20
               && events[0].uid != events[11].uid
  {
    var user1 := UserOneTenConversions();
    var events := user1 + [Touchpoint(2, false, 5, "facebook")];
    var since1 := (f: Touchpoint) => f.uid == 1 && f.conversion && f.datetime >= 0;
    var since2 := (f: Touchpoint) => f.uid == 2 && f.conversion && f.datetime >= 5;
    assert |events| == 12 && events[0].uid == 1 && events[11].uid == 2;
    assert Segmentation.DistinctTimesPerUser(events);
    assert Segmentation.ConversionsSince(events, 1, 0) == 10 by {
      CountAppend(user1, [Touchpoint(2, false, 5, "facebook")], since1);
      CountAppend([user1[0]], user1[1..], since1);
      assert [user1[0]] + user1[1..] == user1;
      AllCounted(user1[1..], since1);
    }
    assert Segmentation.ConversionsSince(events, 2, 5) == 0 by {
      CountAppend(user1, [Touchpoint(2, false, 5, "facebook")], since2);
    }
  }

  /** User 1: an event at time 0, then ten conversions at times 1 to 10. */
  function UserOneTenConversions(): (s: seq<Touchpoint>)
    ensures |s| == 11 && s[0] == Touchpoint(1, false, 0, "display")
    ensures forall n :: 1 <= n < 11 ==> s[n] == Touchpoint(1, true, n, "google")
  {
    [Touchpoint(1, false, 0, "display")] + seq(10, n => Touchpoint(1, true, n + 1, "google"))
  }
}
