/**
 Stage 6, the per-journey conversion label
 (get_conversion_status_at_journey_level): the rows are grouped by journey
 and each group's conversion flags are reduced with logical or, giving one
 (journey_id, conversion_status) row per journey.
 */
module Labels {
  import opened Seqs
  import opened Records

  /** The journeys that occur in the frame. */
  function JourneyIds<J>(s: seq<Indexed<J>>): set<J> {
    set x | x in s :: x.journeyId
  }

  /** Some row of journey `j` is a conversion. */
  ghost predicate HasConversion<J>(s: seq<Indexed<J>>, j: J) {
    exists i :: 0 <= i < |s| && s[i].journeyId == j && s[i].conversion
  }

  /** The group-by-and-or, accumulated row by row. */
  function ConversionByJourney<J(==)>(s: seq<Indexed<J>>): (m: map<J, bool>)
    ensures m.Keys == JourneyIds(s)
    ensures forall j :: j in m ==> (m[j] <==> HasConversion(s, j))
  {
    if s == [] then map[]
    else
      var n := |s| - 1;
      var init := ConversionByJourney(s[..n]);
      var x := s[n];
      assert s == s[..n] + [x];
      var m := init[x.journeyId := (x.journeyId in init && init[x.journeyId]) || x.conversion];
      HasConversionExtend(s);
      m
  }

  lemma HasConversionExtend<J>(s: seq<Indexed<J>>)
    requires s != []
    ensures forall j :: j in JourneyIds(s) ==>
      (HasConversion(s, j) <==> HasConversion(s[..|s| - 1], j) || (j == s[|s| - 1].journeyId && s[|s| - 1].conversion))
  {
    var n := |s| - 1;
    forall j ensures HasConversion(s, j) <==> HasConversion(s[..n], j) || (j == s[n].journeyId && s[n].conversion) {
      if HasConversion(s, j) {
        var i :| 0 <= i < |s| && s[i].journeyId == j && s[i].conversion;
        if i < n { assert s[..n][i] == s[i]; }
      }
      if HasConversion(s[..n], j) {
        var i :| 0 <= i < n && s[..n][i].journeyId == j && s[..n][i].conversion;
        assert s[i] == s[..n][i];
      }
    }
  }

  /**
   One label row per journey of the frame, true exactly when some row of that
   journey is a conversion.
   */
  function GetConversionStatusAtJourneyLevel<J(==)>(s: seq<Indexed<J>>): (r: set<Label<J>>)
    ensures r == set j | j in JourneyIds(s) :: Label(j, HasConversion(s, j))
    ensures forall a, b :: a in r && b in r && a.journeyId == b.journeyId ==> a == b
  {
    var m := ConversionByJourney(s);
    set j | j in m :: Label(j, m[j])
  }

  /** The labels depend only on which rows occur, not on their order or multiplicity. */
  lemma LabelsOrderIndependent<J>(a: seq<Indexed<J>>, b: seq<Indexed<J>>)
    requires forall x :: x in a <==> x in b
    ensures GetConversionStatusAtJourneyLevel(a) == GetConversionStatusAtJourneyLevel(b)
  {
    assert JourneyIds(a) == JourneyIds(b);
    forall j ensures HasConversion(a, j) == HasConversion(b, j) {
      if HasConversion(a, j) {
        var i :| 0 <= i < |a| && a[i].journeyId == j && a[i].conversion;
        assert a[i] in b;
      }
      if HasConversion(b, j) {
        var i :| 0 <= i < |b| && b[i].journeyId == j && b[i].conversion;
        assert b[i] in a;
      }
    }
  }
}
