/** What every revision offered to the traveller keeps. */
module RevisionLaws {
  import opened Subsequences
  import opened Route
  import opened Dropping
  import opened DroppingLaws
  import opened Consolidation
  import opened ConsolidationLaws
  import R = Revision

  /** `plan` is an honest rearrangement of the route's stops: nothing invented, nothing lost but `dropped` stops. */
  ghost predicate SoundPlan(route: Route, plan: seq<Stop>, dropped: nat, reordered: bool) {
    && SameEnds(route.stops, plan) && |plan| + dropped == |route.stops|
    && TotalNights(plan) == TotalNights(route.stops)
    && FromRoute(plan, route.stops)
    && dropped <= R.MaxDroppable(route)
    && if reordered then dropped == 0 && multiset(plan) == multiset(route.stops)
       else Moves(Beds(plan)) <= Moves(Beds(route.stops)) && OneNightStays(plan) <= OneNightStays(route.stops)
  }

  /** Every stop of the plan is a stop of the route, up to its nights. */
  ghost predicate FromRoute(plan: seq<Stop>, stops: seq<Stop>) {
    forall k :: 0 <= k < |plan| ==> OneOf(plan[k], stops)
  }

  ghost predicate OneOf(s: Stop, stops: seq<Stop>) {
    exists i :: 0 <= i < |stops| && s == stops[i].(nights := s.nights)
  }

  /** The candidate's two columns describe a sound plan. */
  ghost predicate Sound(route: Route, c: R.Revision) {
    exists plan: seq<Stop> ::
      Names(plan) == c.stops && NightsOf(plan) == c.nights && SoundPlan(route, plan, |c.dropped|, c.reordered)
  }

  ghost predicate AllSound(route: Route, cs: seq<R.Revision>) {
    forall k :: 0 <= k < |cs| ==> Sound(route, cs[k])
  }

  // ----- drops -----

  lemma {:induction false} KeptAndDroppedFit(stops: seq<Stop>, drop: set<nat>, n: nat)
    requires n <= |stops|
    ensures |KeptUpTo(stops, drop, n)| + |DroppedUpTo(stops, drop, n)| == n
  {
    if n > 0 {
      KeptAndDroppedFit(stops, drop, n - 1);
    }
  }

  lemma SomeStopSurvives(route: Route, drop: set<nat>)
    requires DistinctOrders(route.stops)
    requires forall i :: i in drop ==> Droppable(route.stops, i)
    requires 0 < |drop| <= R.MaxDroppable(route)
    ensures Admissible(route.stops, drop)
  {
    var all := R.OvernightIndices(route.stops);
    if forall i :: i in all ==> i in drop {
      DistinctFits(all, drop);
    }
  }

  lemma DropIsSound(route: Route, drop: set<nat>, strategy: string)
    requires DistinctOrders(route.stops) && route.stops != []
    requires forall i :: i in drop ==> Droppable(route.stops, i)
    requires 0 < |drop| <= R.MaxDroppable(route)
    ensures AllSound(route, R.DropCandidate(route, drop, strategy))
  {
    var plan := AfterDrop(route, drop);
    var gone := Dropped(route.stops, drop);
    SomeStopSurvives(route, drop);
    DropConservesNights(route, drop);
    DropKeepsEndpoints(route, drop);
    DropAddsNoChurn(route, drop);
    DropIsFromRoute(route, drop);
    KeptAndDroppedFit(route.stops, drop, |route.stops|);
    DroppedCount(route.stops, drop, |route.stops|);
    SubsetSize((set i | i in drop && i < |route.stops|), drop);
    assert SoundPlan(route, plan, |gone|, false);
    assert |Names(gone)| == |gone|;
  }

  lemma DropIsFromRoute(route: Route, drop: set<nat>)
    requires Admissible(route.stops, drop)
    ensures FromRoute(AfterDrop(route, drop), route.stops)
  {
    var kept, plan := Kept(route.stops, drop), AfterDrop(route, drop);
    KeptIs(route.stops, drop, |route.stops|);
    assert route.stops[..|route.stops|] == route.stops;
    forall k | 0 <= k < |plan|
      ensures OneOf(plan[k], route.stops)
    {
      assert kept[k] in kept;
      SubseqMember(kept, route.stops, kept[k]);
      var i :| 0 <= i < |route.stops| && route.stops[i] == kept[k];
      assert plan[k] == route.stops[i].(nights := plan[k].nights);
    }
  }

  lemma BothSound(route: Route, a: seq<R.Revision>, b: seq<R.Revision>)
    requires AllSound(route, a) && AllSound(route, b)
    ensures AllSound(route, a + b)
  {
  }

  lemma {:induction false} SinglesAreSound(route: Route, labels: R.Labels, top: seq<nat>)
    requires DistinctOrders(route.stops) && R.InRange(top, |route.stops|) && R.MaxDroppable(route) >= 1
    requires forall k :: 0 <= k < |top| ==> Droppable(route.stops, top[k])
    ensures AllSound(route, R.SingleDrops(route, labels, top))
  {
    if top != [] {
      var n := |top| - 1;
      var name := labels.dropOne(route.stops[top[n]].name);
      SinglesAreSound(route, labels, top[..n]);
      DropIsSound(route, {top[n]}, name);
      BothSound(route, R.SingleDrops(route, labels, top[..n]), R.DropCandidate(route, {top[n]}, name));
    }
  }

  lemma {:induction false} PairsWithAreSound(route: Route, labels: R.Labels, first: nat, rest: seq<nat>)
    requires DistinctOrders(route.stops) && R.InRange(rest, |route.stops|) && R.MaxDroppable(route) >= 2
    requires Droppable(route.stops, first) && forall k :: 0 <= k < |rest| ==> Droppable(route.stops, rest[k])
    ensures AllSound(route, R.PairsWith(route, labels, first, rest))
  {
    if rest != [] {
      var n := |rest| - 1;
      var name := labels.dropTwo(route.stops[first].name, route.stops[rest[n]].name);
      PairsWithAreSound(route, labels, first, rest[..n]);
      DropIsSound(route, {first, rest[n]}, name);
      BothSound(route, R.PairsWith(route, labels, first, rest[..n]), R.DropCandidate(route, {first, rest[n]}, name));
    }
  }

  lemma {:induction false} PairsAreSound(route: Route, labels: R.Labels, top: seq<nat>, n: nat)
    requires DistinctOrders(route.stops) && R.InRange(top, |route.stops|) && n <= |top| && R.MaxDroppable(route) >= 2
    requires forall k :: 0 <= k < |top| ==> Droppable(route.stops, top[k])
    ensures AllSound(route, R.PairDrops(route, labels, top, n))
  {
    if n > 0 {
      PairsAreSound(route, labels, top, n - 1);
      PairsWithAreSound(route, labels, top[n - 1], top[n..]);
      BothSound(route, R.PairDrops(route, labels, top, n - 1), R.PairsWith(route, labels, top[n - 1], top[n..]));
    }
  }

  lemma DropsAreSound(route: Route, labels: R.Labels, km: Distance)
    requires DistinctOrders(route.stops)
    ensures AllSound(route, R.DropCandidates(route, labels, km))
  {
    R.TopIsDroppable(route, km);
    var top := R.TopDroppable(route, km);
    if R.MaxDroppable(route) >= 1 {
      SinglesAreSound(route, labels, top);
      if R.MaxDroppable(route) >= 2 {
        PairsAreSound(route, labels, top, |top|);
      }
    }
  }

  // ----- folding -----

  lemma {:induction false} FoldFits(route: Route, n: nat)
    requires n <= |route.stops|
    ensures |PlanUpTo(route, n)| + |GoneUpTo(route, n)| == n
  {
    if n > 0 {
      FoldFits(route, n - 1);
    }
  }

  lemma FoldIsFromRoute(route: Route)
    ensures FromRoute(Folded(route), route.stops)
  {
    FoldingIsASelection(route, |route.stops|);
    forall k | 0 <= k < |Folded(route)|
      ensures OneOf(Folded(route)[k], route.stops)
    {
      assert Folded(route)[k] in PlanUpTo(route, |route.stops|);
    }
  }

  lemma ConsolidationIsSound(route: Route)
    ensures AllSound(route, R.ConsolidateCandidate(route))
  {
    if R.ConsolidateCandidate(route) != [] {
      var plan, gone := Folded(route), GoneUpTo(route, |route.stops|);
      RunsAreMaximal(route.stops, |route.stops|);
      assert Runs(route.stops)[0].1 <= |route.stops|;
      FoldingConservesNights(route);
      FoldingKeepsEndpoints(route);
      FoldingAddsNoChurn(route);
      FoldIsFromRoute(route);
      FoldFits(route, |route.stops|);
      assert SoundPlan(route, plan, |Names(gone)|, false);
    }
  }

  // ----- reordering -----

  lemma {:induction false} NearestOrderPermutes(at: LatLon, remaining: seq<Stop>, km: Distance)
    requires R.Located(remaining)
    ensures multiset(R.NearestOrder(at, remaining, km)) == multiset(remaining)
    decreases |remaining|
  {
    if remaining != [] {
      var i := R.NearestIndex(at, remaining, km);
      assert remaining[i] in remaining;
      NearestOrderPermutes(remaining[i].coords.value, RemoveAt(remaining, i), km);
      RemoveAtMultiset(remaining, i);
    }
  }

  lemma NearestOrderLocated(at: LatLon, remaining: seq<Stop>, km: Distance, s: Stop)
    requires R.Located(remaining) && s in R.NearestOrder(at, remaining, km)
    ensures s in remaining && s.coords.Some?
  {
    NearestOrderPermutes(at, remaining, km);
    assert s in multiset(R.NearestOrder(at, remaining, km));
  }

  lemma NearestIsNearest(at: LatLon, remaining: seq<Stop>, km: Distance, s: Stop)
    requires R.Located(remaining) && s in remaining
    ensures var i := R.NearestIndex(at, remaining, km);
            remaining[i].coords.Some? && s.coords.Some? && km(at, remaining[i].coords.value) <= km(at, s.coords.value)
  {
    var j :| 0 <= j < |remaining| && remaining[j] == s;
    assert remaining[R.NearestIndex(at, remaining, km)] in remaining;
  }

  /** At every point the next stop is as near to the last one as any that is still to be visited. */
  lemma {:induction false} AlwaysToTheNearest(at: LatLon, remaining: seq<Stop>, km: Distance, j: nat, k: nat)
    requires R.Located(remaining) && j <= k < |R.NearestOrder(at, remaining, km)|
    ensures var order := R.NearestOrder(at, remaining, km);
            && order[j].coords.Some? && order[k].coords.Some?
            && (j == 0 ==> km(at, order[0].coords.value) <= km(at, order[k].coords.value))
            && (j > 0 ==> order[j - 1].coords.Some? &&
                          km(order[j - 1].coords.value, order[j].coords.value) <= km(order[j - 1].coords.value, order[k].coords.value))
    decreases |remaining|
  {
    var order := R.NearestOrder(at, remaining, km);
    NearestOrderLocated(at, remaining, km, order[k]);
    NearestIsNearest(at, remaining, km, order[k]);
    if j > 0 {
      var i := R.NearestIndex(at, remaining, km);
      AlwaysToTheNearest(remaining[i].coords.value, RemoveAt(remaining, i), km, j - 1, k - 1);
    }
  }

  /** Rearranging what lies between the first and the last stop. */
  lemma InteriorRearranged(stops: seq<Stop>, order: seq<Stop>)
    requires |stops| >= 2 && multiset(order) == multiset(stops[1..|stops| - 1])
    ensures multiset([stops[0]] + order + [stops[|stops| - 1]]) == multiset(stops)
  {
    assert stops == [stops[0]] + stops[1..|stops| - 1] + [stops[|stops| - 1]];
  }

  lemma ReorderPermutes(stops: seq<Stop>, km: Distance)
    requires |stops| >= 2 && R.Located(stops)
    ensures multiset(R.Reordered(stops, km)) == multiset(stops)
  {
    assert stops[0] in stops;
    var start, interior := stops[0].coords.value, stops[1..|stops| - 1];
    NearestOrderPermutes(start, interior, km);
    InteriorRearranged(stops, R.NearestOrder(start, interior, km));
  }

  lemma {:induction false} TotalIsOverMultiset(a: seq<Stop>, b: seq<Stop>)
    requires multiset(a) == multiset(b)
    ensures TotalNights(a) == TotalNights(b) && |a| == |b|
  {
    if a == [] {
      assert |multiset(b)| == 0;
    } else {
      assert a[0] in multiset(b);
      var i := IndexIn(b, a[0]);
      RemoveAtMultiset(b, i);
      RemoveAtMultiset(a, 0);
      assert RemoveAt(a, 0) == a[1..];
      assert multiset(a[1..]) == multiset(a) - multiset{a[0]};
      assert multiset(RemoveAt(b, i)) == multiset(b) - multiset{b[i]};
      TotalIsOverMultiset(a[1..], RemoveAt(b, i));
      TotalWithout(b, i);
    }
  }

  lemma {:induction false} TotalWithout(stops: seq<Stop>, i: nat)
    requires i < |stops|
    ensures TotalNights(stops) == TotalNights(RemoveAt(stops, i)) + stops[i].nights
  {
    if i == 0 {
      assert RemoveAt(stops, 0) == stops[1..];
    } else {
      TotalWithout(stops[1..], i - 1);
      assert RemoveAt(stops, i)[1..] == RemoveAt(stops[1..], i - 1);
    }
  }

  lemma PermutationIsFromRoute(plan: seq<Stop>, stops: seq<Stop>)
    requires multiset(plan) == multiset(stops)
    ensures FromRoute(plan, stops)
  {
    forall k | 0 <= k < |plan|
      ensures OneOf(plan[k], stops)
    {
      assert plan[k] in multiset(plan) && plan[k] in multiset(stops);
      var i := IndexIn(stops, plan[k]);
      assert plan[k] == stops[i].(nights := plan[k].nights);
    }
  }

  lemma ReorderKeepsEnds(stops: seq<Stop>, km: Distance)
    requires |stops| >= 2 && R.Located(stops)
    ensures SameEnds(stops, R.Reordered(stops, km))
  {
    assert stops[0] in stops;
    var order := R.NearestOrder(stops[0].coords.value, stops[1..|stops| - 1], km);
    assert R.Reordered(stops, km) == [stops[0]] + order + [stops[|stops| - 1]];
  }

  lemma ReorderIsSound(route: Route, km: Distance)
    ensures AllSound(route, R.ReorderCandidate(route, km))
  {
    if R.CanReorder(route.stops, km) {
      var plan := R.Reordered(route.stops, km);
      ReorderPermutes(route.stops, km);
      TotalIsOverMultiset(plan, route.stops);
      PermutationIsFromRoute(plan, route.stops);
      ReorderKeepsEnds(route.stops, km);
      assert SoundPlan(route, plan, 0, true);
    }
  }

  // ----- the list offered -----

  lemma {:induction false} UniqueIsDrawn(cs: seq<R.Revision>, k: nat)
    requires k < |R.Unique(cs)|
    ensures R.Unique(cs)[k] in cs
  {
    var n := |cs| - 1;
    assert cs == cs[..n] + [cs[n]];
    if k < |R.Unique(cs[..n])| {
      UniqueIsDrawn(cs[..n], k);
    }
  }

  /** Nothing is lost by removing duplicates: every plan is still represented. */
  lemma {:induction false} UniqueRepresentsAll(cs: seq<R.Revision>, c: R.Revision)
    requires c in cs
    ensures exists k :: 0 <= k < |R.Unique(cs)| && R.SamePlan(R.Unique(cs)[k], c)
  {
    var n := |cs| - 1;
    var before := R.Unique(cs[..n]);
    assert cs == cs[..n] + [cs[n]];
    if c in cs[..n] {
      UniqueRepresentsAll(cs[..n], c);
      var k :| 0 <= k < |before| && R.SamePlan(before[k], c);
      assert R.Unique(cs)[k] == before[k];
    } else if exists d :: d in cs[..n] && R.SamePlan(d, c) {
      var d :| d in cs[..n] && R.SamePlan(d, c);
      UniqueRepresentsAll(cs[..n], d);
      var k :| 0 <= k < |before| && R.SamePlan(before[k], d);
      assert R.Unique(cs)[k] == before[k];
    } else {
      assert R.Unique(cs)[|before|] == c;
    }
  }

  lemma {:induction false} UniqueHasNoDuplicates(cs: seq<R.Revision>, j: nat, k: nat)
    requires j < k < |R.Unique(cs)|
    ensures !R.SamePlan(R.Unique(cs)[j], R.Unique(cs)[k])
  {
    var n := |cs| - 1;
    if k < |R.Unique(cs[..n])| {
      UniqueHasNoDuplicates(cs[..n], j, k);
    } else {
      UniqueIsDrawn(cs[..n], j);
    }
  }

  lemma OfferedAreSound(route: Route, all: seq<R.Revision>)
    requires AllSound(route, all)
    ensures var offered := Take(R.Unique(all), R.MAX_CANDIDATES);
            && AllSound(route, offered)
            && |offered| <= R.MAX_CANDIDATES
            && forall j, k :: 0 <= j < k < |offered| ==> !R.SamePlan(offered[j], offered[k])
  {
    var offered := Take(R.Unique(all), R.MAX_CANDIDATES);
    forall k | 0 <= k < |offered|
      ensures Sound(route, offered[k])
    {
      UniqueIsDrawn(all, k);
    }
    forall j, k | 0 <= j < k < |offered|
      ensures !R.SamePlan(offered[j], offered[k])
    {
      UniqueHasNoDuplicates(all, j, k);
    }
  }

  /**
   Every candidate offered, whichever transformation made it, has the traveller's nights, endpoints
   and stops; drops and folds never add a change of bed or a one-night stay; no two candidates are
   the same plan, and there are at most eight.
   */
  lemma CandidatesAreSound(route: Route, labels: R.Labels, km: Distance, backtracking: bool)
    requires DistinctOrders(route.stops)
    ensures var offered := Take(R.Unique(R.AllCandidates(route, labels, km, backtracking)), R.MAX_CANDIDATES);
            && AllSound(route, offered)
            && |offered| <= R.MAX_CANDIDATES
            && forall j, k :: 0 <= j < k < |offered| ==> !R.SamePlan(offered[j], offered[k])
  {
    AllCandidatesAreSound(route, labels, km, backtracking);
    OfferedAreSound(route, R.AllCandidates(route, labels, km, backtracking));
  }

  lemma AllCandidatesAreSound(route: Route, labels: R.Labels, km: Distance, backtracking: bool)
    requires DistinctOrders(route.stops)
    ensures AllSound(route, R.AllCandidates(route, labels, km, backtracking))
  {
    DropsAreSound(route, labels, km);
    ConsolidationIsSound(route);
    ReorderIsSound(route, km);
  }
}
