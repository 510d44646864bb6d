/** Event selection on the analysed BeGe tree: per-event cut decisions, the
    event lists the selector builds from them, their intersection, and the
    combined efficiency expression. The cut curves come from a database and
    are uninterpreted functions of the energy here. */
module BeGeCuts {
  import opened BeGeChannelInfo
  import opened RisetimeInfo
  import opened AnalyzeWaveforms

  /** The curves the selector evaluates: the microphonics band, and the
      rise-time limits at low and at high energy. */
  datatype Curves = Curves(lowerCut: real -> real, upperCut: real -> real,
                           risetimeCut: real -> real, upperRisetimeCut: real -> real)

  /** The tree entries the cuts read. Channel records 0..4 (waveforms 0, 1,
      2, 4, 5) and rise-time records 0..1 must be present; the accessors do
      no bounds check. */
  predicate WellShaped(tree: seq<Entry>) {
    forall i :: 0 <= i < |tree| ==>
      |tree[i].channelInfo.channels| >= 5 && |tree[i].risetimeInfo.channels| >= 2
  }

  /** Energy proxy of channel record `c`: average peak over the baseline. */
  function Energy(e: Entry, c: nat): real
    requires c < |e.channelInfo.channels|
  {
    e.channelInfo.GetChannel(c).averagepeak - e.channelInfo.GetChannel(c).baseline
  }

  // ---------------------------------------------------------------------
  // Per-event decisions

  /** The cuts whose decision is a plain condition. */
  datatype Cut = OddPulse | Risetime | LNFill | LNFillOn

  /** Whether an event enters the list of `cut`. */
  predicate Passes(curves: Curves, cut: Cut, e: Entry)
    requires |e.channelInfo.channels| >= 5 && |e.risetimeInfo.channels| >= 2
  {
    match cut
    case OddPulse =>
      // energy of channel 1 above 10 mV, or a rise spread below the linear limit
      var energy := Energy(e, 1);
      var diff := e.risetimeInfo.GetChannel(1).maximum - e.risetimeInfo.GetChannel(1).minimum;
      energy > 0.01 || diff < 140.0 + 6000.0 * energy
    case Risetime =>
      var energy := Energy(e, 1);
      var upperPasses := e.risetimeInfo.GetChannel(1).risetime * 0.001 <= curves.upperRisetimeCut(Energy(e, 2));
      var lowerPasses := e.risetimeInfo.GetChannel(0).risetime * 0.001 <= curves.risetimeCut(energy);
      if energy >= 0.05 then upperPasses
      else if energy >= 0.045 then upperPasses && lowerPasses
      else lowerPasses
    case LNFill => e.pulserOn != 1
    case LNFillOn => e.pulserOn == 1
  }

  /** What the microphonics scan does with one event. */
  datatype Outcome = Skipped | Entered | DivisionByZero

  /** The microphonics decision. The ratio of channel-0 to channel-1 energy
      is formed as soon as the baseline test is passed, so a zero channel-1
      energy there raises a division error. */
  function MicrophonicsOutcome(curves: Curves, e: Entry): Outcome
    requires |e.channelInfo.channels| >= 5
  {
    if e.channelInfo.GetChannel(1).baseline > -0.008 then Skipped
    else
      var energy := Energy(e, 1);
      if energy == 0.0 then DivisionByZero
      else
        var ratio := Energy(e, 0) / energy;
        if e.channelInfo.GetChannel(1).minimum <= -0.02 then Skipped
        else if e.pulserOn == 1 then Skipped
        else if energy > 0.05 then Entered
        else if ratio <= curves.upperCut(energy) && ratio >= curves.lowerCut(energy) then Entered
        else Skipped
  }

  /** The microphonics cut never enters a quiet-baseline, deep-minimum or
      pulser event; otherwise a high-energy event enters, and a low-energy
      one enters iff its ratio lies in the band. */
  lemma MicrophonicsDecision(curves: Curves, e: Entry)
    requires |e.channelInfo.channels| >= 5
    ensures (e.channelInfo.GetChannel(1).baseline > -0.008 || e.pulserOn == 1 ||
             (Energy(e, 1) != 0.0 && e.channelInfo.GetChannel(1).minimum <= -0.02))
            ==> MicrophonicsOutcome(curves, e) != Entered
    ensures MicrophonicsOutcome(curves, e) == DivisionByZero <==>
            e.channelInfo.GetChannel(1).baseline <= -0.008 && Energy(e, 1) == 0.0
    ensures e.channelInfo.GetChannel(1).baseline <= -0.008 && e.channelInfo.GetChannel(1).minimum > -0.02 &&
            e.pulserOn != 1 && Energy(e, 1) != 0.0 ==>
            (MicrophonicsOutcome(curves, e) == Entered <==>
             Energy(e, 1) > 0.05 ||
             (curves.lowerCut(Energy(e, 1)) <= Energy(e, 0) / Energy(e, 1) <= curves.upperCut(Energy(e, 1))))
  {
  }

  /** The two liquid-nitrogen lists split the events by the pulser flag. */
  lemma LNComplementary(curves: Curves, e: Entry)
    requires |e.channelInfo.channels| >= 5 && |e.risetimeInfo.channels| >= 2
    ensures Passes(curves, LNFill, e) <==> !Passes(curves, LNFillOn, e)
  {
  }

  // ---------------------------------------------------------------------
  // Event lists

  predicate Ascending(s: seq<nat>) {
    forall i, j :: 0 <= i < j < |s| ==> s[i] < s[j]
  }

  /** The indices below `n` of the events that pass `cut`, in entry order. */
  function Selected(curves: Curves, cut: Cut, tree: seq<Entry>, n: nat): (r: seq<nat>)
    requires WellShaped(tree) && n <= |tree|
    ensures Ascending(r)
    ensures forall k :: 0 <= k < |r| ==> r[k] < n
  {
    if n == 0 then []
    else Selected(curves, cut, tree, n - 1) + (if Passes(curves, cut, tree[n - 1]) then [n - 1] else [])
  }

  /** An index is listed iff its event passes. */
  lemma {:induction false} SelectedMembers(curves: Curves, cut: Cut, tree: seq<Entry>, n: nat, i: nat)
    requires WellShaped(tree) && n <= |tree|
    ensures i in Selected(curves, cut, tree, n) <==> i < n && Passes(curves, cut, tree[i])
  {
    if n > 0 {
      SelectedMembers(curves, cut, tree, n - 1, i);
    }
  }

  /** Every index lands in exactly one of the two liquid-nitrogen lists. */
  lemma LNPartition(curves: Curves, tree: seq<Entry>, i: nat)
    requires WellShaped(tree) && i < |tree|
    ensures i in Selected(curves, LNFill, tree, |tree|) <==> i !in Selected(curves, LNFillOn, tree, |tree|)
  {
    SelectedMembers(curves, LNFill, tree, |tree|, i);
    SelectedMembers(curves, LNFillOn, tree, |tree|, i);
  }

  /** The microphonics entries below `n`, in entry order. */
  function MicrophonicsSelected(curves: Curves, tree: seq<Entry>, n: nat): (r: seq<nat>)
    requires WellShaped(tree) && n <= |tree|
    ensures Ascending(r)
    ensures forall k :: 0 <= k < |r| ==> r[k] < n
  {
    if n == 0 then []
    else MicrophonicsSelected(curves, tree, n - 1) + (if MicrophonicsOutcome(curves, tree[n - 1]) == Entered then [n - 1] else [])
  }

  lemma {:induction false} MicrophonicsMembers(curves: Curves, tree: seq<Entry>, n: nat, i: nat)
    requires WellShaped(tree) && n <= |tree|
    ensures i in MicrophonicsSelected(curves, tree, n) <==> i < n && MicrophonicsOutcome(curves, tree[i]) == Entered
  {
    if n > 0 {
      MicrophonicsMembers(curves, tree, n - 1, i);
    }
  }

  /** How far the microphonics scan gets: the first event that divides by
      zero, or the whole tree. */
  function MicrophonicsReach(curves: Curves, tree: seq<Entry>, n: nat): (r: nat)
    requires WellShaped(tree) && n <= |tree|
    ensures r <= n
    ensures forall i :: 0 <= i < r ==> MicrophonicsOutcome(curves, tree[i]) != DivisionByZero
    ensures r < n ==> MicrophonicsOutcome(curves, tree[r]) == DivisionByZero
  {
    if n == 0 then 0
    else
      var before := MicrophonicsReach(curves, tree, n - 1);
      if before < n - 1 then before
      else if MicrophonicsOutcome(curves, tree[n - 1]) == DivisionByZero then n - 1
      else n
  }

  /** `TEventList::Intersect`: the entries of `a` that are also in `b`, in
      the order of `a`. */
  function Intersect(a: seq<nat>, b: seq<nat>): (r: seq<nat>)
    ensures forall x :: x in r <==> x in a && x in b
  {
    if |a| == 0 then []
    else
      assert forall x :: x in a <==> x == a[0] || x in a[1..];
      (if a[0] in b then [a[0]] else []) + Intersect(a[1..], b)
  }

  /** Intersecting an ascending list keeps it ascending. */
  lemma {:induction false} IntersectAscending(a: seq<nat>, b: seq<nat>)
    requires Ascending(a)
    ensures Ascending(Intersect(a, b))
  {
    if |a| > 0 {
      IntersectAscending(a[1..], b);
      var rest := Intersect(a[1..], b);
      forall k | 0 <= k < |rest|
        ensures a[0] < rest[k]
      {
        assert rest[k] in a[1..];
      }
    }
  }

  // ---------------------------------------------------------------------
  // Efficiency expression

  /** The names joined by "*", in list order. */
  function JoinStar(names: seq<string>): string
    requires |names| >= 1
  {
    if |names| == 1 then names[0] else names[0] + "*" + JoinStar(names[1..])
  }

  /** Splitting at every "*". */
  function SplitStar(s: string): (parts: seq<string>)
    ensures |parts| >= 1
  {
    if |s| == 0 then [""]
    else
      var rest := SplitStar(s[1..]);
      if s[0] == '*' then [""] + rest else [[s[0]] + rest[0]] + rest[1..]
  }

  lemma {:induction false} SplitPlain(a: string)
    requires '*' !in a
    ensures SplitStar(a) == [a]
  {
    if |a| > 0 {
      assert '*' !in a[1..] by {
        assert forall x :: x in a[1..] ==> x in a;
      }
      SplitPlain(a[1..]);
      assert [a[0]] + a[1..] == a;
    }
  }

  lemma {:induction false} SplitAfterPlain(a: string, b: string)
    requires '*' !in a
    ensures SplitStar(a + "*" + b) == [a] + SplitStar(b)
  {
    if |a| == 0 {
      assert a + "*" + b == "*" + b;
      assert ("*" + b)[1..] == b;
    } else {
      assert '*' !in a[1..] by {
        assert forall x :: x in a[1..] ==> x in a;
      }
      SplitAfterPlain(a[1..], b);
      assert (a + "*" + b)[1..] == a[1..] + "*" + b;
      assert [a[0]] + a[1..] == a;
    }
  }

  /** Names without "*" are recovered from the expression. */
  lemma {:induction false} SplitJoin(names: seq<string>)
    requires |names| >= 1
    requires forall k :: 0 <= k < |names| ==> '*' !in names[k]
    ensures SplitStar(JoinStar(names)) == names
  {
    if |names| == 1 {
      SplitPlain(names[0]);
    } else {
      SplitJoin(names[1..]);
      SplitAfterPlain(names[0], JoinStar(names[1..]));
      assert [names[0]] + names[1..] == names;
    }
  }

  /** Any expression is the join of its pieces. */
  lemma {:induction false} JoinSplit(s: string)
    ensures JoinStar(SplitStar(s)) == s
  {
    if |s| > 0 {
      JoinSplit(s[1..]);
      var rest := SplitStar(s[1..]);
      if s[0] == '*' {
        assert s == "*" + s[1..];
        assert JoinStar([""] + rest) == "" + "*" + JoinStar(rest);
      } else {
        var parts := [[s[0]] + rest[0]] + rest[1..];
        assert parts[1..] == rest[1..];
        if |rest| == 1 {
          assert s == [s[0]] + rest[0];
        } else {
          assert JoinStar(rest) == rest[0] + "*" + JoinStar(rest[1..]);
          assert s == [s[0]] + s[1..];
        }
      }
    }
  }

  // ---------------------------------------------------------------------
  // The selector

  /** The selector: each builder resets its own list and enters, in entry
      order, the indices of the events passing its cut. */
  class Selector {
    var microphonicsList: seq<nat>
    var risetimeList: seq<nat>
    var lnCutList: seq<nat>
    var oddPulseCutList: seq<nat>
    var lnCutOnList: seq<nat>
    var combinationList: seq<nat>
    const curves: Curves
    /** Names of the rise-time, microphonics and trigger efficiency functions. */
    const efficiencyNames: seq<string>

    constructor (curves: Curves, risetimeEfficiency: string, microphonicsEfficiency: string, triggerEfficiency: string)
      ensures this.curves == curves
      ensures efficiencyNames == [risetimeEfficiency, microphonicsEfficiency, triggerEfficiency]
      ensures microphonicsList == risetimeList == lnCutList == oddPulseCutList == lnCutOnList == combinationList == []
    {
      this.curves := curves;
      efficiencyNames := [risetimeEfficiency, microphonicsEfficiency, triggerEfficiency];
      microphonicsList, risetimeList, lnCutList := [], [], [];
      oddPulseCutList, lnCutOnList, combinationList := [], [], [];
    }

    method GetOddPulseCutList(tree: seq<Entry>) returns (list: seq<nat>)
      requires WellShaped(tree)
      modifies this`oddPulseCutList
      ensures oddPulseCutList == Selected(curves, OddPulse, tree, |tree|) && list == oddPulseCutList
    {
      oddPulseCutList := [];
      var i := 0;
      while i < |tree|
        invariant 0 <= i <= |tree|
        invariant oddPulseCutList == Selected(curves, OddPulse, tree, i)
      {
        var achan := tree[i].risetimeInfo.GetChannel(1);
        var energy := Energy(tree[i], 1);
        var diff := achan.maximum - achan.minimum;
        var ratio := diff;
        if energy > 0.01 || ratio < 140.0 + 6000.0 * energy {
          oddPulseCutList := oddPulseCutList + [i];
        }
        i := i + 1;
      }
      list := oddPulseCutList;
    }

    method GetRisetimeCutList(tree: seq<Entry>) returns (list: seq<nat>)
      requires WellShaped(tree)
      modifies this`risetimeList
      ensures risetimeList == Selected(curves, Risetime, tree, |tree|) && list == risetimeList
    {
      risetimeList := [];
      var i := 0;
      while i < |tree|
        invariant 0 <= i <= |tree|
        invariant risetimeList == Selected(curves, Risetime, tree, i)
      {
        var enter := RisetimeEnters(tree[i]);
        if enter {
          risetimeList := risetimeList + [i];
        }
        i := i + 1;
      }
      // the list is already in entry order, so `Sort` leaves it as it is
      list := risetimeList;
    }

    /** The rise-time decision for one entry, in the order the scan takes it. */
    method RisetimeEnters(e: Entry) returns (enter: bool)
      requires |e.channelInfo.channels| >= 5 && |e.risetimeInfo.channels| >= 2
      ensures enter == Passes(curves, Risetime, e)
    {
      var energy := Energy(e, 1);
      var eval: Option<real -> real> := None;
      var risetime := 0.0;
      if energy >= 0.05 {
        energy := Energy(e, 2);
        risetime := e.risetimeInfo.GetChannel(1).risetime * 0.001;
        eval := Some(curves.upperRisetimeCut);
      } else if energy <= 0.05 && energy >= 0.045 {
        var energyTwo := Energy(e, 2);
        var risetimeTwo := e.risetimeInfo.GetChannel(1).risetime * 0.001;
        risetime := e.risetimeInfo.GetChannel(0).risetime * 0.001;
        if risetimeTwo <= curves.upperRisetimeCut(energyTwo) && risetime <= curves.risetimeCut(energy) {
          // the better of the two cuts is taken
          return true;
        }
      } else {
        risetime := e.risetimeInfo.GetChannel(0).risetime * 0.001;
        eval := Some(curves.risetimeCut);
      }
      enter := eval.Some? && risetime <= eval.value(energy);
    }

    method GetLNFillOnCutList(tree: seq<Entry>) returns (list: seq<nat>)
      requires WellShaped(tree)
      modifies this`lnCutOnList
      ensures lnCutOnList == Selected(curves, LNFillOn, tree, |tree|) && list == lnCutOnList
    {
      lnCutOnList := [];
      var i := 0;
      while i < |tree|
        invariant 0 <= i <= |tree|
        invariant lnCutOnList == Selected(curves, LNFillOn, tree, i)
      {
        if tree[i].pulserOn == 1 {
          lnCutOnList := lnCutOnList + [i];
        }
        i := i + 1;
      }
      list := lnCutOnList;
    }

    method GetLNFillCutList(tree: seq<Entry>) returns (list: seq<nat>)
      requires WellShaped(tree)
      modifies this`lnCutList
      ensures lnCutList == Selected(curves, LNFill, tree, |tree|) && list == lnCutList
    {
      lnCutList := [];
      var i := 0;
      while i < |tree|
        invariant 0 <= i <= |tree|
        invariant lnCutList == Selected(curves, LNFill, tree, i)
      {
        if tree[i].pulserOn != 1 {
          lnCutList := lnCutList + [i];
        }
        i := i + 1;
      }
      list := lnCutList;
    }

    /** The microphonics scan. A division by zero stops it with `completed`
        false, leaving the entries made before the failing event. */
    method GetMicrophonicsCutsList(tree: seq<Entry>) returns (completed: bool, list: seq<nat>)
      requires WellShaped(tree)
      modifies this`microphonicsList
      ensures completed <==> MicrophonicsReach(curves, tree, |tree|) == |tree|
      ensures microphonicsList == MicrophonicsSelected(curves, tree, MicrophonicsReach(curves, tree, |tree|))
      ensures list == microphonicsList
    {
      microphonicsList := [];
      var i := 0;
      while i < |tree|
        invariant 0 <= i <= |tree|
        invariant MicrophonicsReach(curves, tree, i) == i
        invariant microphonicsList == MicrophonicsSelected(curves, tree, i)
      {
        var e := tree[i];
        if e.channelInfo.GetChannel(1).baseline > -0.008 {
          i := i + 1;
          continue;
        }
        var energy := Energy(e, 1);
        if energy == 0.0 {
          ReachStops(curves, tree, i);
          return false, microphonicsList;
        }
        var ratio := Energy(e, 0) / energy;
        var minimum := e.channelInfo.GetChannel(1).minimum;
        var chan := e.channelInfo.GetChannel(4);
        if minimum <= -0.02 {
          i := i + 1;
          continue;
        }
        if e.pulserOn != 1 {
          if energy > 0.05 {
            microphonicsList := microphonicsList + [i];
          } else if ratio <= curves.upperCut(energy) && ratio >= curves.lowerCut(energy) {
            microphonicsList := microphonicsList + [i];
          }
        }
        i := i + 1;
      }
      // already in entry order: `Sort` leaves it as it is
      return true, microphonicsList;
    }

    /** Runs the four builders of the cut list in order (rise time,
        microphonics, LN fill, odd pulse) and intersects their results into
        `combinationList`. A division error in the microphonics scan
        propagates: `completed` is false and nothing is combined. */
    method GetAllCutsList(tree: seq<Entry>) returns (completed: bool, combined: seq<nat>)
      requires WellShaped(tree)
      modifies this`risetimeList, this`microphonicsList, this`lnCutList, this`oddPulseCutList, this`combinationList
      ensures completed <==> MicrophonicsReach(curves, tree, |tree|) == |tree|
      ensures completed ==> combined == combinationList && Ascending(combined)
      ensures completed ==> forall i :: i in combined <==>
        0 <= i < |tree| && Passes(curves, Risetime, tree[i]) && MicrophonicsOutcome(curves, tree[i]) == Entered &&
        Passes(curves, LNFill, tree[i]) && Passes(curves, OddPulse, tree[i])
      ensures !completed ==> combinationList == old(combinationList)
      ensures risetimeList == Selected(curves, Risetime, tree, |tree|)
      ensures microphonicsList == MicrophonicsSelected(curves, tree, MicrophonicsReach(curves, tree, |tree|))
      ensures completed ==> lnCutList == Selected(curves, LNFill, tree, |tree|) &&
                            oddPulseCutList == Selected(curves, OddPulse, tree, |tree|)
      ensures !completed ==> lnCutList == old(lnCutList) && oddPulseCutList == old(oddPulseCutList)
    {
      var risetime := GetRisetimeCutList(tree);
      var ok, microphonics := GetMicrophonicsCutsList(tree);
      if !ok {
        return false, [];
      }
      var ln := GetLNFillCutList(tree);
      var odd := GetOddPulseCutList(tree);
      var els := [risetime, microphonics, ln, odd];
      combinationList := els[0];
      var i := 1;
      while i < |els|
        invariant 1 <= i <= |els|
        invariant Ascending(combinationList)
        invariant forall x :: x in combinationList <==> InAll(x, els, i)
        invariant risetimeList == risetime && microphonicsList == microphonics && lnCutList == ln && oddPulseCutList == odd
      {
        InAllStep(els, i);
        IntersectAscending(combinationList, els[i]);
        combinationList := Intersect(combinationList, els[i]);
        i := i + 1;
      }
      combined := combinationList;
      completed := true;
      AllCutsMembers(curves, tree, els, combined);
    }

    /** The combined efficiency expression: the efficiency names joined by
        "*" in list order. */
    method GetAllCutsEfficiency() returns (expression: string)
      requires |efficiencyNames| >= 1
      ensures expression == JoinStar(efficiencyNames)
    {
      expression := efficiencyNames[0];
      var i := 1;
      JoinStarTail(efficiencyNames, 1);
      assert efficiencyNames[0..] == efficiencyNames;
      while i < |efficiencyNames|
        invariant 1 <= i <= |efficiencyNames|
        invariant JoinStar(efficiencyNames) == expression + JoinTail(efficiencyNames, i)
      {
        expression := expression + "*" + efficiencyNames[i];
        i := i + 1;
      }
    }
  }

  /** The part of the joined names from name `i` on, each preceded by "*". */
  function JoinTail(names: seq<string>, i: nat): string
    requires 1 <= i <= |names|
    decreases |names| - i
  {
    if i == |names| then "" else "*" + names[i] + JoinTail(names, i + 1)
  }

  /** Joining is the first name followed by every later one behind a "*". */
  lemma {:induction false} JoinStarTail(names: seq<string>, i: nat)
    requires 1 <= i <= |names|
    ensures JoinStar(names[i - 1..]) == names[i - 1] + JoinTail(names, i)
    decreases |names| - i
  {
    if i < |names| {
      JoinStarTail(names, i + 1);
      assert names[i - 1..][1..] == names[i..];
    }
  }

  /** `x` is listed in each of the first `i` lists. */
  ghost predicate InAll(x: nat, els: seq<seq<nat>>, i: nat)
    requires i <= |els|
  {
    forall k :: 0 <= k < i ==> x in els[k]
  }

  lemma InAllStep(els: seq<seq<nat>>, i: nat)
    requires 1 <= i < |els|
    ensures forall x :: InAll(x, els, i + 1) <==> InAll(x, els, i) && x in els[i]
  {
  }

  /** Membership of the intersection of the four cut lists, event by event. */
  lemma AllCutsMembers(curves: Curves, tree: seq<Entry>, els: seq<seq<nat>>, combined: seq<nat>)
    requires WellShaped(tree)
    requires els == [Selected(curves, Risetime, tree, |tree|), MicrophonicsSelected(curves, tree, |tree|),
                     Selected(curves, LNFill, tree, |tree|), Selected(curves, OddPulse, tree, |tree|)]
    requires forall x :: x in combined <==> InAll(x, els, 4)
    ensures forall x :: x in combined <==>
      0 <= x < |tree| && Passes(curves, Risetime, tree[x]) && MicrophonicsOutcome(curves, tree[x]) == Entered &&
      Passes(curves, LNFill, tree[x]) && Passes(curves, OddPulse, tree[x])
  {
    forall x: nat
      ensures x in combined <==>
        x < |tree| && Passes(curves, Risetime, tree[x]) && MicrophonicsOutcome(curves, tree[x]) == Entered &&
        Passes(curves, LNFill, tree[x]) && Passes(curves, OddPulse, tree[x])
    {
      SelectedMembers(curves, Risetime, tree, |tree|, x);
      MicrophonicsMembers(curves, tree, |tree|, x);
      SelectedMembers(curves, LNFill, tree, |tree|, x);
      SelectedMembers(curves, OddPulse, tree, |tree|, x);
      assert InAll(x, els, 4) <==> x in els[0] && x in els[1] && x in els[2] && x in els[3];
    }
  }

  /** A division by zero at event `i`, after a clean prefix, stops the scan there. */
  lemma ReachStops(curves: Curves, tree: seq<Entry>, i: nat)
    requires WellShaped(tree) && i < |tree|
    requires MicrophonicsReach(curves, tree, i) == i
    requires MicrophonicsOutcome(curves, tree[i]) == DivisionByZero
    ensures MicrophonicsReach(curves, tree, |tree|) == i
  {
  }

  datatype Option<T> = None | Some(value: T)
}
