/**
 Stage 7, the pivot to positional columns (get_campaigns_at_journey_level):
 one row per journey, with one column per position 1 to the maximum length
 holding the campaign at that position, or null (`None`) when the journey is
 shorter. This is where journeys are padded to a fixed width.
 */
module Pivot {
  import opened Seqs
  import opened Records
  import opened Ranking
  import Labels

  /** The campaign of the first row of journey `j` at position `p`, if there is one. */
  function CampaignAt<J(==)>(s: seq<Indexed<J>>, j: J, p: int): (c: Option<string>)
    ensures c.Some? ==> exists i :: 0 <= i < |s| && s[i].journeyId == j && s[i].campaignIndex == p
                                                 && s[i].campaign == c.value
    ensures c.None? <==> forall i :: 0 <= i < |s| ==> !(s[i].journeyId == j && s[i].campaignIndex == p)
  {
    if s == [] then None
    else if s[0].journeyId == j && s[0].campaignIndex == p then Some(s[0].campaign)
    else
      var c := CampaignAt(s[1..], j, p);
      assert forall i :: 1 <= i < |s| ==> s[i] == s[1..][i - 1];
      c
  }

  /** Journey `j`'s columns for positions 1 to `maxLen`. */
  function Columns<J(==)>(s: seq<Indexed<J>>, j: J, maxLen: nat): (cols: seq<Option<string>>)
    ensures |cols| == maxLen
  {
    seq(maxLen, i => CampaignAt(s, j, i + 1))
  }

  /** One row per journey of the frame, `maxLen` positional columns wide. */
  function GetCampaignsAtJourneyLevel<J(==)>(s: seq<Indexed<J>>, maxLen: nat): (r: set<Pivoted<J>>)
    ensures forall row :: row in r ==> row.journeyId in Labels.JourneyIds(s) && |row.campaigns| == maxLen
    ensures forall j :: j in Labels.JourneyIds(s) ==> Pivoted(j, Columns(s, j, maxLen)) in r
    ensures forall a, b :: a in r && b in r && a.journeyId == b.journeyId ==> a == b
  {
    set j | j in Labels.JourneyIds(s) :: Pivoted(j, Columns(s, j, maxLen))
  }

  /**
   In a well-indexed frame a cell has at most one source row: column i of
   journey j holds campaign c exactly when the frame has the row of journey j
   at position i + 1 with campaign c, and is empty exactly when it has no row
   at that position.
   */
  lemma PivotCell<J>(s: seq<Indexed<J>>, maxLen: nat, row: Pivoted<J>, i: int, c: string)
    requires WellIndexed(s)
    requires row in GetCampaignsAtJourneyLevel(s, maxLen) && 0 <= i < maxLen
    ensures row.campaigns[i] == Some(c)
        <==> Indexed(row.journeyId, true, c, i + 1) in s || Indexed(row.journeyId, false, c, i + 1) in s
    ensures row.campaigns[i] == None
        <==> forall x :: x in s ==> !(x.journeyId == row.journeyId && x.campaignIndex == i + 1)
  {
    var j := row.journeyId;
    RowCell(s, maxLen, row, i);
    if row.campaigns[i] == Some(c) {
      FilledCellHasRow(s, j, i + 1, c);
    }
    if Indexed(j, true, c, i + 1) in s || Indexed(j, false, c, i + 1) in s {
      RowFillsCell(s, j, i + 1, c);
    }
    if row.campaigns[i] == None {
      EmptyCellHasNoRow(s, j, i + 1);
    }
  }

  /** Column `i` of a pivoted row is the journey's cell at position `i + 1`. */
  lemma RowCell<J>(s: seq<Indexed<J>>, maxLen: nat, row: Pivoted<J>, i: int)
    requires row in GetCampaignsAtJourneyLevel(s, maxLen) && 0 <= i < maxLen
    ensures row.campaigns[i] == CampaignAt(s, row.journeyId, i + 1)
  {
    assert row == Pivoted(row.journeyId, Columns(s, row.journeyId, maxLen));
  }

  lemma FilledCellHasRow<J>(s: seq<Indexed<J>>, j: J, p: nat, c: string)
    requires CampaignAt(s, j, p) == Some(c)
    ensures Indexed(j, true, c, p) in s || Indexed(j, false, c, p) in s
  {
    var k :| 0 <= k < |s| && s[k].journeyId == j && s[k].campaignIndex == p && s[k].campaign == c;
    assert s[k] == Indexed(j, s[k].conversion, c, p);
  }

  /** In a well-indexed frame the row at a journey's position is the one its cell shows. */
  lemma RowFillsCell<J>(s: seq<Indexed<J>>, j: J, p: nat, c: string)
    requires WellIndexed(s)
    requires Indexed(j, true, c, p) in s || Indexed(j, false, c, p) in s
    ensures CampaignAt(s, j, p) == Some(c)
  {
    var b :| Indexed(j, b, c, p) in s;
    var x := Indexed(j, b, c, p);
    assert CampaignAt(s, j, p).Some?;
    var k :| 0 <= k < |s| && s[k].journeyId == j && s[k].campaignIndex == p
                           && s[k].campaign == CampaignAt(s, j, p).value;
    assert s[k] == x;
  }

  lemma EmptyCellHasNoRow<J>(s: seq<Indexed<J>>, j: J, p: nat)
    requires CampaignAt(s, j, p) == None
    ensures forall x :: x in s ==> !(x.journeyId == j && x.campaignIndex == p)
  {
    forall x | x in s ensures !(x.journeyId == j && x.campaignIndex == p) {
      var k :| 0 <= k < |s| && s[k] == x;
    }
  }

  /** A cell of the pivot: journey, 1-based position, campaign. */
  datatype Cell<J> = Cell(journeyId: J, position: int, campaign: string)

  /** Reads the filled cells back out of pivoted rows. */
  function Unpivot<J(==)>(rows: set<Pivoted<J>>): set<Cell<J>> {
    set row, i | row in rows && 0 <= i < |row.campaigns| && row.campaigns[i].Some? ::
      Cell(row.journeyId, i + 1, row.campaigns[i].value)
  }

  /** The cells of a frame's rows that fit in the width. */
  function CellsWithin<J(==)>(s: seq<Indexed<J>>, maxLen: nat): set<Cell<J>> {
    set x | x in s && x.campaignIndex <= maxLen :: Cell(x.journeyId, x.campaignIndex, x.campaign)
  }

  /**
   Pivot round trip: reading the cells back out of the pivot of a well-indexed
   frame gives exactly the frame's (journey, position, campaign) triples that
   fit in the width — nothing is lost and nothing is invented.
   */
  lemma PivotRoundTrip<J>(s: seq<Indexed<J>>, maxLen: nat)
    requires WellIndexed(s)
    ensures Unpivot(GetCampaignsAtJourneyLevel(s, maxLen)) == CellsWithin(s, maxLen)
  {
    var r := GetCampaignsAtJourneyLevel(s, maxLen);
    forall cell | cell in Unpivot(r) ensures cell in CellsWithin(s, maxLen) {
      var row, i :| row in r && 0 <= i < |row.campaigns| && row.campaigns[i].Some?
                    && cell == Cell(row.journeyId, i + 1, row.campaigns[i].value);
      PivotCell(s, maxLen, row, i, row.campaigns[i].value);
      var b :| Indexed(row.journeyId, b, row.campaigns[i].value, i + 1) in s;
    }
    forall cell | cell in CellsWithin(s, maxLen) ensures cell in Unpivot(r) {
      var x :| x in s && x.campaignIndex <= maxLen && cell == Cell(x.journeyId, x.campaignIndex, x.campaign);
      assert x.journeyId in Labels.JourneyIds(s);
      var row := Pivoted(x.journeyId, Columns(s, x.journeyId, maxLen));
      var i := x.campaignIndex - 1;
      assert x == Indexed(x.journeyId, x.conversion, x.campaign, i + 1);
      PivotCell(s, maxLen, row, i, x.campaign);
      assert row.campaigns[i] == Some(x.campaign);
    }
  }

  /** Two frames with the same rows have a row at the same cells. */
  lemma SameOccupancy<J>(a: seq<Indexed<J>>, b: seq<Indexed<J>>, j: J, p: int)
    requires forall x :: x in a <==> x in b
    ensures CampaignAt(a, j, p).None? <==> CampaignAt(b, j, p).None?
  {
    if CampaignAt(a, j, p).Some? {
      var i :| 0 <= i < |a| && a[i].journeyId == j && a[i].campaignIndex == p;
      assert a[i] in b;
    }
    if CampaignAt(b, j, p).Some? {
      var k :| 0 <= k < |b| && b[k].journeyId == j && b[k].campaignIndex == p;
      assert b[k] in a;
    }
  }

  /** The pivot depends only on which rows occur, not on their order. */
  lemma PivotOrderIndependent<J>(a: seq<Indexed<J>>, b: seq<Indexed<J>>, maxLen: nat)
    requires WellIndexed(a) && WellIndexed(b)
    requires forall x :: x in a <==> x in b
    ensures GetCampaignsAtJourneyLevel(a, maxLen) == GetCampaignsAtJourneyLevel(b, maxLen)
  {
    assert Labels.JourneyIds(a) == Labels.JourneyIds(b);
    forall j, p ensures CampaignAt(a, j, p) == CampaignAt(b, j, p) {
      SameOccupancy(a, b, j, p);
      if CampaignAt(a, j, p).Some? && CampaignAt(b, j, p).Some? {
        var i :| 0 <= i < |a| && a[i].journeyId == j && a[i].campaignIndex == p && a[i].campaign == CampaignAt(a, j, p).value;
        assert a[i] in b;
        var k :| 0 <= k < |b| && b[k] == a[i];
        var k' :| 0 <= k' < |b| && b[k'].journeyId == j && b[k'].campaignIndex == p && b[k'].campaign == CampaignAt(b, j, p).value;
        assert b[k'] == b[k];
      }
    }
    forall j ensures Columns(a, j, maxLen) == Columns(b, j, maxLen) {
    }
  }
}
