/**
 Folding runs of consecutive single nights into one base (`_consolidate_one_nighters` in
 `backend/src/jst_api/domain/revision.py`).
 */
module Consolidation {
  import opened Route
  import opened Dropping

  /** An interior stop of exactly one night. */
  predicate Single(stops: seq<Stop>, i: int) {
    0 < i < |stops| - 1 && stops[i].nights == 1
  }

  /** The first stop of the run of single nights around stop `i`. */
  function RunLo(stops: seq<Stop>, i: nat): (lo: nat)
    requires Single(stops, i)
    ensures 0 < lo <= i && !Single(stops, lo - 1)
    ensures forall k :: lo <= k <= i ==> Single(stops, k)
  {
    if Single(stops, i - 1) then RunLo(stops, i - 1) else i
  }

  /** One past the last stop of that run. */
  function RunHi(stops: seq<Stop>, i: nat): (hi: nat)
    requires Single(stops, i)
    ensures i < hi < |stops| && !Single(stops, hi)
    ensures forall k :: i <= k < hi ==> Single(stops, k)
    decreases |stops| - i
  {
    if Single(stops, i + 1) then RunHi(stops, i + 1) else i + 1
  }

  /** A maximal run: single nights all the way from `lo` up to `hi`, and none just outside. */
  ghost predicate IsRun(stops: seq<Stop>, lo: nat, hi: nat) {
    && 0 < lo < hi < |stops|
    && (forall k :: lo <= k < hi ==> Single(stops, k))
    && !Single(stops, lo - 1) && !Single(stops, hi)
  }

  /** The cheapest stop of a run to reach, the earliest among equals. */
  function Base(route: Route, lo: nat, hi: nat): (b: nat)
    requires lo < hi <= |route.stops|
    ensures lo <= b < hi
    decreases hi
  {
    if hi == lo + 1 then lo else
    var b := Base(route, lo, hi - 1);
    if BurdenRatio(route, route.stops[hi - 1].order) < BurdenRatio(route, route.stops[b].order) then hi - 1 else b
  }

  /** Stop `i` belongs to a run long enough to be folded. */
  predicate InFold(stops: seq<Stop>, i: nat) {
    Single(stops, i) && RunHi(stops, i) - RunLo(stops, i) >= 2
  }

  predicate Gone(route: Route, i: nat) {
    InFold(route.stops, i) && i != Base(route, RunLo(route.stops, i), RunHi(route.stops, i))
  }

  function NewNights(route: Route, i: nat): nat
    requires i < |route.stops|
  {
    if InFold(route.stops, i) then RunHi(route.stops, i) - RunLo(route.stops, i) else route.stops[i].nights
  }

  function PlanUpTo(route: Route, n: nat): seq<Stop>
    requires n <= |route.stops|
  {
    if n == 0 then [] else
    var before := PlanUpTo(route, n - 1);
    if Gone(route, n - 1) then before else before + [route.stops[n - 1].(nights := NewNights(route, n - 1))]
  }

  /** The stops after folding, with their new nights. */
  function Folded(route: Route): seq<Stop> {
    PlanUpTo(route, |route.stops|)
  }

  function GoneUpTo(route: Route, n: nat): seq<Stop>
    requires n <= |route.stops|
  {
    if n == 0 then [] else
    var before := GoneUpTo(route, n - 1);
    if Gone(route, n - 1) then before + [route.stops[n - 1]] else before
  }

  /** Runs of two or more that end strictly before `i`, in order. */
  function RunsBefore(stops: seq<Stop>, i: nat): seq<(nat, nat)>
    requires i <= |stops|
  {
    if i <= 1 then [] else
    var earlier := RunsBefore(stops, i - 1);
    if Single(stops, i - 2) && !Single(stops, i - 1) && (i - 1) - RunLo(stops, i - 2) >= 2
    then earlier + [(RunLo(stops, i - 2), i - 1)] else earlier
  }

  function Runs(stops: seq<Stop>): seq<(nat, nat)> {
    RunsBefore(stops, |stops|)
  }

  function BaseNames(route: Route, runs: seq<(nat, nat)>): seq<string>
    requires forall k :: 0 <= k < |runs| ==> runs[k].0 < runs[k].1 <= |route.stops|
  {
    if runs == [] then [] else
    var n := |runs| - 1;
    BaseNames(route, runs[..n]) + [route.stops[Base(route, runs[n].0, runs[n].1)].name]
  }

  // ----- the runs found by the first loop -----

  lemma {:induction false} RunsAreMaximal(stops: seq<Stop>, i: nat)
    requires i <= |stops|
    ensures forall k :: 0 <= k < |RunsBefore(stops, i)| ==>
              var (lo, hi) := RunsBefore(stops, i)[k]; IsRun(stops, lo, hi) && hi - lo >= 2 && hi < i
    ensures forall j, k :: 0 <= j < k < |RunsBefore(stops, i)| ==> RunsBefore(stops, i)[j].1 <= RunsBefore(stops, i)[k].0
  {
    if i > 1 {
      RunsAreMaximal(stops, i - 1);
    }
  }

  lemma {:induction false} RunsAreComplete(stops: seq<Stop>, i: nat, lo: nat, hi: nat)
    requires i <= |stops| && IsRun(stops, lo, hi) && hi - lo >= 2 && hi < i
    ensures (lo, hi) in RunsBefore(stops, i)
  {
    if hi == i - 1 {
      RunBounds(stops, lo, hi, hi - 1);
    } else {
      RunsAreComplete(stops, i - 1, lo, hi);
    }
  }

  /** A stop inside a maximal run has that run's bounds. */
  lemma RunBounds(stops: seq<Stop>, lo: nat, hi: nat, i: nat)
    requires IsRun(stops, lo, hi) && lo <= i < hi
    ensures RunLo(stops, i) == lo && RunHi(stops, i) == hi
  {
  }

  lemma RunAround(stops: seq<Stop>, i: nat)
    requires Single(stops, i)
    ensures IsRun(stops, RunLo(stops, i), RunHi(stops, i))
  {
  }

  // ----- the three loops -----

  method FindRuns(stops: seq<Stop>) returns (runs: seq<(nat, nat)>)
    ensures runs == Runs(stops)
  {
    runs := [];
    var current: seq<nat> := [];
    for i := 0 to |stops|
      invariant runs == RunsBefore(stops, i)
      invariant |current| == (if i > 0 && Single(stops, i - 1) then i - RunLo(stops, i - 1) else 0)
      invariant current != [] ==> current[0] == RunLo(stops, i - 1)
    {
      if Single(stops, i) {
        current := current + [i];
      } else {
        if |current| >= 2 {
          runs := runs + [(current[0], i)];
        }
        current := [];
      }
    }
  }

  function Extra(extra: map<nat, nat>, i: nat): nat {
    if i in extra then extra[i] else 0
  }

  /** Every stop of the run but its base is dropped, and the base's extra nights grow by one for each. */
  ghost predicate FoldedInto(route: Route, lo: nat, hi: nat, drop: set<nat>, extra: map<nat, nat>, drop': set<nat>, extra': map<nat, nat>)
    requires lo < hi <= |route.stops|
  {
    var base := Base(route, lo, hi);
    && (forall i :: i in drop' <==> i in drop || (lo <= i < hi && i != base))
    && (forall i :: i != base ==> Extra(extra', i) == Extra(extra, i))
    && Extra(extra', base) == Extra(extra, base) + (hi - lo - 1)
  }

  method FoldRun(route: Route, lo: nat, hi: nat, drop: set<nat>, extra: map<nat, nat>)
    returns (base: nat, drop': set<nat>, extra': map<nat, nat>)
    requires IsRun(route.stops, lo, hi)
    ensures base == Base(route, lo, hi) && FoldedInto(route, lo, hi, drop, extra, drop', extra')
  {
    base := Base(route, lo, hi);
    drop', extra' := drop, extra;
    for i := lo to hi
      invariant forall k :: k in drop' <==> k in drop || (lo <= k < i && k != base)
      invariant forall k :: k != base ==> Extra(extra', k) == Extra(extra, k)
      invariant Extra(extra', base) == Extra(extra, base) + (i - lo) - (if base < i then 1 else 0)
    {
      assert Single(route.stops, i);
      if i != base {
        drop' := drop' + {i};
        extra' := extra'[base := Extra(extra', base) + route.stops[i].nights];
      }
    }
  }

  /** Everything before this point has been decided once the first `k` runs are folded. */
  function Frontier(runs: seq<(nat, nat)>, k: nat): nat
    requires k <= |runs|
  {
    if k == 0 then 0 else runs[k - 1].1
  }

  lemma NothingBetweenRuns(stops: seq<Stop>, k: nat, i: nat)
    requires k <= |Runs(stops)| && Frontier(Runs(stops), k) <= i < |stops|
    requires k < |Runs(stops)| ==> i < Runs(stops)[k].0
    ensures !InFold(stops, i)
  {
    RunsAreMaximal(stops, |stops|);
    if InFold(stops, i) {
      var r := FoldIndex(stops, i);
    }
  }

  lemma FoldIndex(stops: seq<Stop>, i: nat) returns (r: nat)
    requires InFold(stops, i)
    ensures r < |Runs(stops)| && Runs(stops)[r].0 <= i < Runs(stops)[r].1
  {
    RunsAreComplete(stops, |stops|, RunLo(stops, i), RunHi(stops, i));
    r :| 0 <= r < |Runs(stops)| && Runs(stops)[r] == (RunLo(stops, i), RunHi(stops, i));
  }

  /** Stop `i` has been treated: dropped if it goes, and given its extra nights. */
  ghost predicate Settled(route: Route, drop: set<nat>, extra: map<nat, nat>, i: nat)
    requires i < |route.stops|
  {
    && (i in drop <==> Gone(route, i))
    && (!Gone(route, i) ==> route.stops[i].nights + Extra(extra, i) == NewNights(route, i))
  }

  ghost predicate Untouched(drop: set<nat>, extra: map<nat, nat>, i: nat) {
    i !in drop && Extra(extra, i) == 0
  }

  /** The stops before `f` have been treated and the others not. */
  ghost predicate SettledUpTo(route: Route, drop: set<nat>, extra: map<nat, nat>, f: nat) {
    && f <= |route.stops|
    && (forall i :: 0 <= i < f ==> Settled(route, drop, extra, i))
    && (forall i :: f <= i ==> Untouched(drop, extra, i))
  }

  lemma RunFolded(route: Route, k: nat, drop: set<nat>, extra: map<nat, nat>, drop': set<nat>, extra': map<nat, nat>)
    requires k < |Runs(route.stops)| && SettledUpTo(route, drop, extra, Frontier(Runs(route.stops), k))
    requires IsRun(route.stops, Runs(route.stops)[k].0, Runs(route.stops)[k].1)
    requires FoldedInto(route, Runs(route.stops)[k].0, Runs(route.stops)[k].1, drop, extra, drop', extra')
    ensures SettledUpTo(route, drop', extra', Runs(route.stops)[k].1)
  {
    var hi := Runs(route.stops)[k].1;
    RunsAreMaximal(route.stops, |route.stops|);
    forall i | 0 <= i < hi
      ensures Settled(route, drop', extra', i)
    {
      FoldSettles(route, k, drop, extra, drop', extra', i);
    }
    forall i: nat | hi <= i
      ensures Untouched(drop', extra', i)
    {
      assert Untouched(drop, extra, i);
    }
  }

  lemma AllSettled(route: Route, drop: set<nat>, extra: map<nat, nat>)
    requires SettledUpTo(route, drop, extra, Frontier(Runs(route.stops), |Runs(route.stops)|))
    ensures forall i :: 0 <= i < |route.stops| ==> Settled(route, drop, extra, i)
  {
    var runs := Runs(route.stops);
    forall i | Frontier(runs, |runs|) <= i < |route.stops|
      ensures Settled(route, drop, extra, i)
    {
      NothingBetweenRuns(route.stops, |runs|, i);
      assert Untouched(drop, extra, i);
    }
  }

  lemma RunsAreRuns(stops: seq<Stop>)
    ensures forall k :: 0 <= k < |Runs(stops)| ==> IsRun(stops, Runs(stops)[k].0, Runs(stops)[k].1)
  {
    RunsAreMaximal(stops, |stops|);
  }

  method FoldRuns(route: Route, runs: seq<(nat, nat)>) returns (drop: set<nat>, extra: map<nat, nat>, merged: seq<string>)
    requires runs == Runs(route.stops)
    ensures forall k :: 0 <= k < |runs| ==> runs[k].0 < runs[k].1 <= |route.stops|
    ensures forall i :: 0 <= i < |route.stops| ==> Settled(route, drop, extra, i)
    ensures merged == BaseNames(route, runs)
  {
    drop, extra, merged := {}, map[], [];
    RunsAreRuns(route.stops);
    for k := 0 to |runs|
      invariant SettledUpTo(route, drop, extra, Frontier(runs, k))
      invariant merged == BaseNames(route, runs[..k])
    {
      ghost var drop0, extra0 := drop, extra;
      var base;
      base, drop, extra := FoldRun(route, runs[k].0, runs[k].1, drop, extra);
      merged := merged + [route.stops[base].name];
      RunFolded(route, k, drop0, extra0, drop, extra);
      assert runs[..k + 1][..k] == runs[..k];
    }
    assert runs[..|runs|] == runs;
    AllSettled(route, drop, extra);
  }

  lemma FoldSettles(route: Route, k: nat, drop: set<nat>, extra: map<nat, nat>, drop': set<nat>, extra': map<nat, nat>, i: nat)
    requires k < |Runs(route.stops)| && i < Runs(route.stops)[k].1
    requires IsRun(route.stops, Runs(route.stops)[k].0, Runs(route.stops)[k].1)
    requires Runs(route.stops)[k].1 - Runs(route.stops)[k].0 >= 2
    requires Frontier(Runs(route.stops), k) <= Runs(route.stops)[k].0
    requires i < Frontier(Runs(route.stops), k) ==> Settled(route, drop, extra, i)
    requires Frontier(Runs(route.stops), k) <= i ==> Untouched(drop, extra, i)
    requires FoldedInto(route, Runs(route.stops)[k].0, Runs(route.stops)[k].1, drop, extra, drop', extra')
    ensures Settled(route, drop', extra', i)
  {
    var (lo, hi) := Runs(route.stops)[k];
    if i < lo {
      if Frontier(Runs(route.stops), k) <= i {
        NothingBetweenRuns(route.stops, k, i);
      }
    } else {
      RunBounds(route.stops, lo, hi, i);
    }
  }

  /** The stops that remain and their nights; four empty lists when there is no run to fold. */
  method ConsolidateOneNighters(route: Route)
    returns (names: seq<string>, nights: seq<nat>, dropped: seq<string>, merged: seq<string>)
    ensures Runs(route.stops) == [] ==> names == [] && nights == [] && dropped == [] && merged == []
    ensures Runs(route.stops) != [] ==>
              && names == Names(Folded(route)) && nights == NightsOf(Folded(route))
              && dropped == Names(GoneUpTo(route, |route.stops|))
              && (forall k :: 0 <= k < |Runs(route.stops)| ==> Runs(route.stops)[k].0 < Runs(route.stops)[k].1 <= |route.stops|)
              && merged == BaseNames(route, Runs(route.stops))
  {
    var stops := route.stops;
    var runs := FindRuns(stops);
    if runs == [] {
      return [], [], [], [];
    }
    var drop, extra;
    drop, extra, merged := FoldRuns(route, runs);
    names, nights, dropped := Rebuild(route, drop, extra);
  }

  /** The comprehensions over what was folded. */
  method Rebuild(route: Route, drop: set<nat>, extra: map<nat, nat>)
    returns (names: seq<string>, nights: seq<nat>, dropped: seq<string>)
    requires forall i :: 0 <= i < |route.stops| ==> Settled(route, drop, extra, i)
    ensures names == Names(Folded(route)) && nights == NightsOf(Folded(route))
    ensures dropped == Names(GoneUpTo(route, |route.stops|))
  {
    var stops := route.stops;
    names, nights, dropped := [], [], [];
    for i := 0 to |stops|
      invariant names == Names(PlanUpTo(route, i)) && nights == NightsOf(PlanUpTo(route, i))
      invariant dropped == Names(GoneUpTo(route, i))
    {
      assert Settled(route, drop, extra, i);
      ColumnsSnoc(PlanUpTo(route, i), stops[i].(nights := NewNights(route, i)));
      ColumnsSnoc(GoneUpTo(route, i), stops[i]);
      if i in drop {
        dropped := dropped + [stops[i].name];
        continue;
      }
      names := names + [stops[i].name];
      nights := nights + [stops[i].nights + Extra(extra, i)];
    }
  }
}
