/** Muon-veto intervals of one event: the regions where the veto channel
    fired, and the two queries the analysis asks of them. */
module Veto {

  /** A waveform region: samples `beginning` to `end`, both inclusive.
      Positions are unsigned (`size_t`), hence naturals. */
  datatype Region = Region(beginning: nat, end: nat) {

    /** Region membership, bounds inclusive. */
    predicate IsInRegion(position: nat) {
      beginning <= position <= end
    }

    predicate WellFormed() {
      beginning <= end
    }
  }

  /** Some region contains `position`. */
  predicate InSomeRegion(regions: seq<Region>, position: nat) {
    exists i :: 0 <= i < |regions| && regions[i].IsInRegion(position)
  }

  /** Some region lies within [beginning, end]. */
  predicate SpansSomeRegion(regions: seq<Region>, beginning: nat, end: nat) {
    exists i :: 0 <= i < |regions| && beginning <= regions[i].beginning && regions[i].end <= end
  }

  /** The three ways the source detects an overlap: a bound inside a region,
      or a region inside the range. */
  predicate RangeHitsRegion(regions: seq<Region>, beginning: nat, end: nat) {
    InSomeRegion(regions, beginning) || InSomeRegion(regions, end) || SpansSomeRegion(regions, beginning, end)
  }

  /** Reference meaning: the closed interval [beginning, end] meets some region. */
  predicate IntersectsSomeRegion(regions: seq<Region>, beginning: nat, end: nat) {
    exists i :: 0 <= i < |regions| && regions[i].beginning <= end && beginning <= regions[i].end
  }

  predicate AllWellFormed(regions: seq<Region>) {
    forall i :: 0 <= i < |regions| ==> regions[i].WellFormed()
  }

  /** The veto object of one event; its ordered `regions` are its only state. */
  datatype MuonVeto = MuonVeto(regions: seq<Region>) {

    function GetNumberOfRegions(): nat {
      |regions|
    }

    /** `regions.clear()`. */
    function Clear(): MuonVeto {
      MuonVeto([])
    }

    /** `regions.push_back(region)`. */
    function PushBack(region: Region): MuonVeto {
      MuonVeto(regions + [region])
    }

    /** Linear scan with early return: is `testPosition` inside some region? */
    method IsInVetoRegion(testPosition: nat) returns (found: bool)
      ensures found == InSomeRegion(regions, testPosition)
    {
      var i := 0;
      while i < |regions|
        invariant 0 <= i <= |regions|
        invariant forall k :: 0 <= k < i ==> !regions[k].IsInRegion(testPosition)
      {
        if testPosition >= regions[i].beginning && testPosition <= regions[i].end {
          return true;
        }
        i := i + 1;
      }
      return false;
    }

    /** Does the range [beginning, end] overlap a region? The two point tests
        cover a bound inside a region; the scan covers a region inside the range. */
    method RangeIsInVetoRegion(beginning: nat, end: nat) returns (found: bool)
      ensures found == RangeHitsRegion(regions, beginning, end)
    {
      found := IsInVetoRegion(beginning);
      if found {
        return;
      }
      found := IsInVetoRegion(end);
      if found {
        return;
      }
      var i := 0;
      while i < |regions|
        invariant 0 <= i <= |regions|
        invariant forall k :: 0 <= k < i ==> !(beginning <= regions[k].beginning && end >= regions[k].end)
      {
        if beginning <= regions[i].beginning && end >= regions[i].end {
          return true;
        }
        i := i + 1;
      }
      return false;
    }
  }

  /** For an ordered range and well-formed regions, the source's case analysis
      is exactly interval intersection. */
  lemma {:induction false} RangeHitsIffIntersects(regions: seq<Region>, beginning: nat, end: nat)
    requires beginning <= end && AllWellFormed(regions)
    ensures RangeHitsRegion(regions, beginning, end) <==> IntersectsSomeRegion(regions, beginning, end)
  {
    if IntersectsSomeRegion(regions, beginning, end) {
      var i :| 0 <= i < |regions| && regions[i].beginning <= end && beginning <= regions[i].end;
      if !regions[i].IsInRegion(beginning) && !regions[i].IsInRegion(end) {
        assert beginning <= regions[i].beginning && regions[i].end <= end;
        assert SpansSomeRegion(regions, beginning, end);
      } else if regions[i].IsInRegion(beginning) {
        assert InSomeRegion(regions, beginning);
      } else {
        assert InSomeRegion(regions, end);
      }
    }
    if InSomeRegion(regions, beginning) {
      var i :| 0 <= i < |regions| && regions[i].IsInRegion(beginning);
      assert regions[i].beginning <= end && beginning <= regions[i].end;
    } else if InSomeRegion(regions, end) {
      var i :| 0 <= i < |regions| && regions[i].IsInRegion(end);
      assert regions[i].beginning <= end && beginning <= regions[i].end;
    } else if SpansSomeRegion(regions, beginning, end) {
      var i :| 0 <= i < |regions| && beginning <= regions[i].beginning && regions[i].end <= end;
      assert regions[i].WellFormed();
      assert regions[i].beginning <= end && beginning <= regions[i].end;
    }
  }

  /** A one-point range asks the point question, when the regions are well formed. */
  lemma {:induction false} PointRangeIsPointTest(regions: seq<Region>, position: nat)
    requires AllWellFormed(regions)
    ensures RangeHitsRegion(regions, position, position) <==> InSomeRegion(regions, position)
  {
    if SpansSomeRegion(regions, position, position) {
      var i :| 0 <= i < |regions| && position <= regions[i].beginning && regions[i].end <= position;
      assert regions[i].WellFormed();
      assert regions[i].IsInRegion(position);
    }
  }

  /** A malformed region (end before beginning) makes the two answers differ. */
  lemma MalformedPointRange()
    ensures RangeHitsRegion([Region(5, 3)], 4, 4) && !InSomeRegion([Region(5, 3)], 4)
  {
    assert SpansSomeRegion([Region(5, 3)], 4, 4) by {
      assert [Region(5, 3)][0] == Region(5, 3);
    }
  }

  /** With no regions neither query fires. */
  lemma NoRegionsNoVeto(position: nat, beginning: nat, end: nat)
    ensures !InSomeRegion([], position) && !RangeHitsRegion([], beginning, end)
  {
  }

  /** Adding a region never withdraws a veto: both queries are existential scans. */
  lemma {:induction false} PushBackKeepsVeto(regions: seq<Region>, region: Region, position: nat, beginning: nat, end: nat)
    ensures InSomeRegion(regions, position) ==> InSomeRegion(regions + [region], position)
    ensures RangeHitsRegion(regions, beginning, end) ==> RangeHitsRegion(regions + [region], beginning, end)
  {
    var extended := regions + [region];
    forall i | 0 <= i < |regions|
      ensures extended[i] == regions[i]
    {
    }
  }

  /** `GetNumberOfRegions` follows `clear` and `push_back`. */
  lemma RegionCount(veto: MuonVeto, region: Region)
    ensures veto.Clear().GetNumberOfRegions() == 0
    ensures veto.PushBack(region).GetNumberOfRegions() == veto.GetNumberOfRegions() + 1
    ensures veto.PushBack(region).regions[veto.GetNumberOfRegions()] == region
  {
  }
}
