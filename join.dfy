/**
 Stage 8, the inner join of the pivoted rows with the labels on journey_id
 (join_at_journey_level): every pair of a pivoted row and a label row with the
 same journey id gives one feature row carrying the pivot's columns and the
 label's conversion status.
 */
module Join {
  import opened Records

  /** The journey ids of pivoted rows. */
  function PivotKeys<J>(left: set<Pivoted<J>>): set<J> {
    set l | l in left :: l.journeyId
  }

  /** The journey ids of label rows. */
  function LabelKeys<J>(right: set<Label<J>>): set<J> {
    set b | b in right :: b.journeyId
  }

  /** No two rows of a frame share a journey id. */
  predicate UniquePivotKeys<J(==)>(left: set<Pivoted<J>>) {
    forall a, b :: a in left && b in left && a.journeyId == b.journeyId ==> a == b
  }

  predicate UniqueLabelKeys<J(==)>(right: set<Label<J>>) {
    forall a, b :: a in right && b in right && a.journeyId == b.journeyId ==> a == b
  }

  /**
   The inner join: a feature row comes from one pivoted row and one label row
   of the same journey, with both unchanged, and every such pair gives one.
   */
  function JoinAtJourneyLevel<J(==)>(left: set<Pivoted<J>>, right: set<Label<J>>): (r: set<Feature<J>>)
    ensures forall f :: f in r ==>
      Pivoted(f.journeyId, f.campaigns) in left && Label(f.journeyId, f.conversionStatus) in right
    ensures forall l, b :: l in left && b in right && l.journeyId == b.journeyId ==>
      Feature(l.journeyId, l.campaigns, b.conversionStatus) in r
  {
    set l, b | l in left && b in right && l.journeyId == b.journeyId ::
      Feature(l.journeyId, l.campaigns, b.conversionStatus)
  }

  /**
   With unique keys on both sides the join has exactly one row per journey id
   present on both sides, and that row carries the label's status unchanged.
   */
  lemma JoinOneRowPerKey<J>(left: set<Pivoted<J>>, right: set<Label<J>>)
    requires UniquePivotKeys(left) && UniqueLabelKeys(right)
    ensures var r := JoinAtJourneyLevel(left, right);
            && (forall j :: (exists f :: f in r && f.journeyId == j) <==> j in PivotKeys(left) && j in LabelKeys(right))
            && (forall f, g :: f in r && g in r && f.journeyId == g.journeyId ==> f == g)
            && (forall f, b :: f in r && b in right && b.journeyId == f.journeyId ==> f.conversionStatus == b.conversionStatus)
            && (forall f, l :: f in r && l in left && l.journeyId == f.journeyId ==> f.campaigns == l.campaigns)
  {
    var r := JoinAtJourneyLevel(left, right);
    forall j ensures (exists f :: f in r && f.journeyId == j) <==> j in PivotKeys(left) && j in LabelKeys(right) {
      if exists f :: f in r && f.journeyId == j {
        var f :| f in r && f.journeyId == j;
        assert Pivoted(f.journeyId, f.campaigns) in left;
        assert Label(f.journeyId, f.conversionStatus) in right;
      }
      if j in PivotKeys(left) && j in LabelKeys(right) {
        var l :| l in left && l.journeyId == j;
        var b :| b in right && b.journeyId == j;
        assert Feature(l.journeyId, l.campaigns, b.conversionStatus) in r;
      }
    }
    forall f, g | f in r && g in r && f.journeyId == g.journeyId ensures f == g {
      assert Pivoted(f.journeyId, f.campaigns) in left && Pivoted(g.journeyId, g.campaigns) in left;
      assert Label(f.journeyId, f.conversionStatus) in right && Label(g.journeyId, g.conversionStatus) in right;
    }
    forall f, b | f in r && b in right && b.journeyId == f.journeyId ensures f.conversionStatus == b.conversionStatus {
      assert Label(f.journeyId, f.conversionStatus) in right;
    }
    forall f, l | f in r && l in left && l.journeyId == f.journeyId ensures f.campaigns == l.campaigns {
      assert Pivoted(f.journeyId, f.campaigns) in left;
    }
  }
}
