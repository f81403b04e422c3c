/** What folding single nights keeps, and why one pass is enough. */
module ConsolidationLaws {
  import opened Subsequences
  import opened Route
  import opened DroppingLaws
  import opened Consolidation

  // ----- nights are conserved -----

  /** Nights already given to the base of an unfinished run, less the nights of the stops passed. */
  function RunningAhead(route: Route, n: nat): int
    requires n <= |route.stops|
  {
    if n > 0 && InFold(route.stops, n - 1) then
      var lo, hi := RunLo(route.stops, n - 1), RunHi(route.stops, n - 1);
      (if Base(route, lo, hi) < n then hi - lo else 0) - (n - lo)
    else 0
  }

  lemma RunningAheadStep(route: Route, n: nat)
    requires n < |route.stops|
    ensures RunningAhead(route, n + 1) ==
            RunningAhead(route, n) + (if Gone(route, n) then 0 else NewNights(route, n)) - route.stops[n].nights
  {
    var stops := route.stops;
    if InFold(stops, n) {
      var lo, hi := RunLo(stops, n), RunHi(stops, n);
      RunAround(stops, n);
      if n > lo {
        RunBounds(stops, lo, hi, n - 1);
      } else {
        assert !Single(stops, n - 1);
      }
    } else if n > 0 && InFold(stops, n - 1) {
      RunAround(stops, n - 1);
      var lo, hi := RunLo(stops, n - 1), RunHi(stops, n - 1);
      if n < hi {
        RunBounds(stops, lo, hi, n);
      }
    }
  }

  lemma {:induction false} NightsSoFar(route: Route, n: nat)
    requires n <= |route.stops|
    ensures TotalNights(PlanUpTo(route, n)) == TotalNights(route.stops[..n]) + RunningAhead(route, n)
  {
    if n > 0 {
      NightsSoFar(route, n - 1);
      RunningAheadStep(route, n - 1);
      PlanStep(route, n - 1);
    }
  }

  lemma PlanStep(route: Route, n: nat)
    requires n < |route.stops|
    ensures TotalNights(PlanUpTo(route, n + 1)) == TotalNights(PlanUpTo(route, n)) + (if Gone(route, n) then 0 else NewNights(route, n))
    ensures TotalNights(route.stops[..n + 1]) == TotalNights(route.stops[..n]) + route.stops[n].nights
  {
    assert route.stops[..n + 1] == route.stops[..n] + [route.stops[n]];
    TotalsSnoc(route.stops[..n], route.stops[n]);
    TotalsSnoc(PlanUpTo(route, n), route.stops[n].(nights := NewNights(route, n)));
  }

  lemma FoldingConservesNights(route: Route)
    ensures TotalNights(Folded(route)) == TotalNights(route.stops)
  {
    NightsSoFar(route, |route.stops|);
    assert route.stops[..|route.stops|] == route.stops;
  }

  // ----- the shape of the result -----

  lemma {:induction false} FirstStopStays(route: Route, n: nat)
    requires 0 < n <= |route.stops|
    ensures PlanUpTo(route, n) != [] && PlanUpTo(route, n)[0] == route.stops[0]
  {
    if n == 1 {
      assert PlanUpTo(route, 0) == [];
    } else {
      FirstStopStays(route, n - 1);
    }
  }

  lemma FoldingKeepsEndpoints(route: Route)
    requires route.stops != []
    ensures var plan := Folded(route);
            && plan != [] && plan[0] == route.stops[0] && plan[|plan| - 1] == route.stops[|route.stops| - 1]
            && (|route.stops| >= 2 ==> |plan| >= 2)
  {
    FirstStopStays(route, |route.stops|);
    if |route.stops| >= 2 {
      FirstStopStays(route, |route.stops| - 1);
    }
  }

  /** What stop `i` of a run contributes. */
  lemma FoldStep(route: Route, lo: nat, hi: nat, i: nat)
    requires IsRun(route.stops, lo, hi) && hi - lo >= 2 && lo <= i < hi
    ensures PlanUpTo(route, i + 1) ==
            PlanUpTo(route, i) + (if i == Base(route, lo, hi) then [route.stops[i].(nights := hi - lo)] else [])
  {
    RunBounds(route.stops, lo, hi, i);
  }

  /** What the first `n - lo` stops of a run leave behind: the base, once it has been passed. */
  function BaseIfPassed(route: Route, lo: nat, hi: nat, n: nat): seq<Stop>
    requires lo < hi <= |route.stops|
  {
    var base := Base(route, lo, hi);
    if base < n then [route.stops[base].(nights := hi - lo)] else []
  }

  lemma BaseIsPassedOnce(route: Route, lo: nat, hi: nat, i: nat)
    requires lo <= i < hi <= |route.stops|
    ensures BaseIfPassed(route, lo, hi, i + 1) ==
            BaseIfPassed(route, lo, hi, i) + (if i == Base(route, lo, hi) then [route.stops[i].(nights := hi - lo)] else [])
  {
  }

  lemma AppendTwice(p: seq<Stop>, q: seq<Stop>, r: seq<Stop>)
    ensures (p + q) + r == p + (q + r)
  {
  }

  lemma RunOneFurther(route: Route, lo: nat, hi: nat, i: nat, p: seq<Stop>)
    requires IsRun(route.stops, lo, hi) && hi - lo >= 2 && lo <= i < hi
    requires PlanUpTo(route, i) == p + BaseIfPassed(route, lo, hi, i)
    ensures PlanUpTo(route, i + 1) == p + BaseIfPassed(route, lo, hi, i + 1)
  {
    FoldStep(route, lo, hi, i);
    BaseIsPassedOnce(route, lo, hi, i);
    AppendTwice(p, BaseIfPassed(route, lo, hi, i), if i == Base(route, lo, hi) then [route.stops[i].(nights := hi - lo)] else []);
  }

  lemma {:induction false} RunSoFar(route: Route, lo: nat, hi: nat, n: nat, p: seq<Stop>)
    requires IsRun(route.stops, lo, hi) && hi - lo >= 2 && lo <= n <= hi
    requires PlanUpTo(route, lo) == p + BaseIfPassed(route, lo, hi, lo)
    ensures PlanUpTo(route, n) == p + BaseIfPassed(route, lo, hi, n)
    decreases n
  {
    if n > lo {
      RunSoFar(route, lo, hi, n - 1, p);
      RunOneFurther(route, lo, hi, n - 1, p);
    }
  }

  /** Each maximal run of two or more single nights becomes one stop that holds all of its nights. */
  lemma RunBecomesOneStop(route: Route, lo: nat, hi: nat)
    requires IsRun(route.stops, lo, hi) && hi - lo >= 2
    ensures PlanUpTo(route, hi) == PlanUpTo(route, lo) + [route.stops[Base(route, lo, hi)].(nights := hi - lo)]
    ensures lo <= Base(route, lo, hi) < hi
  {
    RunSoFar(route, lo, hi, hi, PlanUpTo(route, lo));
  }

  lemma OtherStopsAreUnchanged(route: Route, i: nat)
    requires i < |route.stops| && !InFold(route.stops, i)
    ensures PlanUpTo(route, i + 1) == PlanUpTo(route, i) + [route.stops[i]]
  {
  }

  lemma {:induction false} FoldingIsASelection(route: Route, n: nat)
    requires n <= |route.stops|
    ensures forall s :: s in PlanUpTo(route, n) ==> exists i :: 0 <= i < n && s == route.stops[i].(nights := s.nights)
  {
    if n > 0 {
      FoldingIsASelection(route, n - 1);
    }
  }

  /** One more stop of the route, and perhaps of the plan, with the same bed and a night there or none. */
  lemma OneMoreStop(plan: seq<Stop>, stops: seq<Stop>, s: Stop, nights: nat)
    requires NoChurn(plan, stops)
    requires nights > 0 <==> s.nights > 0
    requires nights == 1 ==> s.nights == 1
    ensures NoChurn(plan, stops + [s]) && NoChurn(plan + [s.(nights := nights)], stops + [s])
  {
    TotalsSnoc(stops, s);
    TotalsSnoc(plan, s.(nights := nights));
    BedsSnoc(stops, s);
    BedsSnoc(plan, s.(nights := nights));
    SubseqSnoc(Beds(plan), Beds(stops), s.bed);
  }

  lemma NewNightsKeepKind(route: Route, i: nat)
    requires i < |route.stops|
    ensures NewNights(route, i) > 0 <==> route.stops[i].nights > 0
    ensures NewNights(route, i) == 1 ==> route.stops[i].nights == 1
  {
  }

  /** The plan so far has no more changes of bed and no more single nights than the route so far. */
  ghost predicate NoChurn(plan: seq<Stop>, stops: seq<Stop>) {
    IsSubseq(Beds(plan), Beds(stops)) && OneNightStays(plan) <= OneNightStays(stops)
  }

  lemma PlanSnoc(route: Route, n: nat)
    requires n < |route.stops|
    ensures PlanUpTo(route, n + 1) ==
            PlanUpTo(route, n) + (if Gone(route, n) then [] else [route.stops[n].(nights := NewNights(route, n))])
    ensures route.stops[..n + 1] == route.stops[..n] + [route.stops[n]]
  {
  }

  type Relation = (seq<Stop>, seq<Stop>) -> bool

  /** The relation survives a step of the fold, whether it takes the stop over or leaves it out. */
  ghost predicate KeptByStep(keeps: Relation, plan: seq<Stop>, stops: seq<Stop>, s: Stop, nights: nat) {
    keeps(plan, stops) && (nights > 0 <==> s.nights > 0) && (nights == 1 ==> s.nights == 1) ==>
    keeps(plan, stops + [s]) && keeps(plan + [s.(nights := nights)], stops + [s])
  }

  /** What every step keeps holds of the whole fold. */
  lemma {:induction false} FoldInduction(route: Route, n: nat, keeps: Relation)
    requires n <= |route.stops| && keeps([], [])
    requires forall plan, stops, s, nights :: KeptByStep(keeps, plan, stops, s, nights)
    ensures keeps(PlanUpTo(route, n), route.stops[..n])
  {
    if n == 0 {
      assert route.stops[..0] == [];
    } else {
      var plan, stops, s := PlanUpTo(route, n - 1), route.stops[..n - 1], route.stops[n - 1];
      FoldInduction(route, n - 1, keeps);
      NewNightsKeepKind(route, n - 1);
      assert KeptByStep(keeps, plan, stops, s, NewNights(route, n - 1));
      PlanSnoc(route, n - 1);
      assert plan + [] == plan;
    }
  }

  lemma FoldedChurn(route: Route, n: nat)
    requires n <= |route.stops|
    ensures NoChurn(PlanUpTo(route, n), route.stops[..n])
  {
    var keeps: Relation := (plan, stops) => NoChurn(plan, stops);
    forall plan, stops, s, nights
      ensures KeptByStep(keeps, plan, stops, s, nights)
    {
      if NoChurn(plan, stops) && (nights > 0 <==> s.nights > 0) && (nights == 1 ==> s.nights == 1) {
        OneMoreStop(plan, stops, s, nights);
      }
    }
    FoldInduction(route, n, keeps);
  }

  lemma FoldingAddsNoChurn(route: Route)
    ensures Moves(Beds(Folded(route))) <= Moves(Beds(route.stops))
    ensures OneNightStays(Folded(route)) <= OneNightStays(route.stops)
  {
    FoldedChurn(route, |route.stops|);
    assert route.stops[..|route.stops|] == route.stops;
    FewerMoves(Beds(Folded(route)), Beds(route.stops));
  }

  // ----- one pass is enough -----

  lemma NeighboursFold(stops: seq<Stop>, i: nat)
    requires Single(stops, i)
    ensures Single(stops, i + 1) ==> InFold(stops, i) && InFold(stops, i + 1)
  {
    RunAround(stops, i);
    if Single(stops, i + 1) {
      RunBounds(stops, RunLo(stops, i), RunHi(stops, i), i + 1);
    }
  }

  ghost predicate NoNeighbouringSingles(plan: seq<Stop>) {
    forall k :: 1 <= k < |plan| - 1 ==> !(plan[k].nights == 1 && plan[k + 1].nights == 1)
  }

  /** If the plan ends in a single night, that is stop `i`, outside every fold. */
  ghost predicate LastIsLoneSingle(route: Route, plan: seq<Stop>, i: nat) {
    EndsInSingle(plan) ==> Single(route.stops, i) && !InFold(route.stops, i)
  }

  predicate EndsInSingle(plan: seq<Stop>) {
    |plan| >= 2 && plan[|plan| - 1].nights == 1
  }

  lemma AppendApart(plan: seq<Stop>, s: Stop)
    requires NoNeighbouringSingles(plan) && (EndsInSingle(plan) ==> s.nights != 1)
    ensures NoNeighbouringSingles(plan + [s])
  {
  }

  /** A stop after a lone single night is not a single night itself. */
  lemma NextToLoneSingle(route: Route, plan: seq<Stop>, i: nat)
    requires 0 < i < |route.stops| - 1 && LastIsLoneSingle(route, plan, i - 1) && EndsInSingle(plan)
    ensures !Single(route.stops, i)
  {
    NeighboursFold(route.stops, i - 1);
  }

  lemma KeptSingleIsLone(route: Route, i: nat)
    requires 0 < i < |route.stops| - 1
    ensures NewNights(route, i) == 1 ==> Single(route.stops, i) && !InFold(route.stops, i)
  {
  }

  lemma {:induction false} SinglesStayApart(route: Route, n: nat)
    requires 0 < n < |route.stops|
    ensures PlanUpTo(route, n) != [] && NoNeighbouringSingles(PlanUpTo(route, n))
    ensures LastIsLoneSingle(route, PlanUpTo(route, n), n - 1)
  {
    PlanSnoc(route, n - 1);
    if n == 1 {
      assert PlanUpTo(route, 0) == [];
    } else {
      var plan, i := PlanUpTo(route, n - 1), n - 1;
      SinglesStayApart(route, n - 1);
      KeptSingleIsLone(route, i);
      if EndsInSingle(plan) {
        NextToLoneSingle(route, plan, i);
      }
      if !Gone(route, i) {
        AppendApart(plan, route.stops[i].(nights := NewNights(route, i)));
      } else {
        assert plan + [] == plan;
      }
    }
  }

  /** Folding the result again finds nothing to fold, whatever the new travel times. */
  lemma OnePassIsEnough(route: Route)
    ensures Runs(Folded(route)) == []
  {
    var plan := Folded(route);
    if Runs(plan) != [] {
      RunsAreMaximal(plan, |plan|);
      var (lo, hi) := Runs(plan)[0];
      assert Single(plan, lo) && Single(plan, lo + 1);
      LastStopAppended(route);
      SinglesStayApart(route, |route.stops| - 1);
    }
  }

  lemma LastStopAppended(route: Route)
    requires |Folded(route)| >= 2
    ensures |route.stops| >= 2
    ensures Folded(route) == PlanUpTo(route, |route.stops| - 1) + [route.stops[|route.stops| - 1]]
  {
    assert PlanUpTo(route, 0) == [];
  }
}
