/**
 Who is picked: the stop that receives the next freed night, the stops that may receive any, and the base
 a run of single nights is folded into (`backend/src/jst_api/domain/revision.py`).
 */
module BurdenLaws {
  import opened Route
  import opened Dropping
  import opened DroppingLaws
  import opened Consolidation

  // ----- what a stop costs to reach -----

  /** The minutes of the first hop that arrives at a stop; none arrives, none counted. */
  lemma {:induction false} ArrivalIs(segments: seq<Segment>, order: int, i: nat)
    ensures (forall k :: 0 <= k < |segments| ==> segments[k].toOrder != order) ==> InboundMinutes(segments, order) == 0
    ensures i < |segments| && segments[i].toOrder == order && (forall k :: 0 <= k < i ==> segments[k].toOrder != order) ==>
            InboundMinutes(segments, order) == segments[i].minutes
  {
    if segments != [] && segments[0].toOrder != order {
      ArrivalIs(segments[1..], order, if i > 0 then i - 1 else 0);
      assert forall k :: 0 < k < |segments| ==> segments[k] == segments[1..][k - 1];
    }
  }

  /** Likewise of the first hop that leaves it. */
  lemma {:induction false} DepartureIs(segments: seq<Segment>, order: int, i: nat)
    ensures (forall k :: 0 <= k < |segments| ==> segments[k].fromOrder != order) ==> OutboundMinutes(segments, order) == 0
    ensures i < |segments| && segments[i].fromOrder == order && (forall k :: 0 <= k < i ==> segments[k].fromOrder != order) ==>
            OutboundMinutes(segments, order) == segments[i].minutes
  {
    if segments != [] && segments[0].fromOrder != order {
      DepartureIs(segments[1..], order, if i > 0 then i - 1 else 0);
      assert forall k :: 0 < k < |segments| ==> segments[k] == segments[1..][k - 1];
    }
  }

  lemma {:induction false} NightsAtIs(stops: seq<Stop>, i: nat)
    requires DistinctOrders(stops) && i < |stops|
    ensures NightsAt(stops, stops[i].order) == stops[i].nights
  {
    if i > 0 {
      NightsAtIs(stops[1..], i - 1);
    }
  }

  /** The burden is the hours in and out of a stop shared by its nights, by one night where there is none. */
  lemma BurdenIsShared(route: Route, i: nat)
    requires DistinctOrders(route.stops) && i < |route.stops|
    ensures var s := route.stops[i];
            60.0 * BurdenRatio(route, s.order) * AtLeastOne(s.nights) as real ==
            (InboundMinutes(route.segments, s.order) + OutboundMinutes(route.segments, s.order)) as real
  {
    NightsAtIs(route.stops, i);
    SharedBy(HoursOf(InboundMinutes(route.segments, route.stops[i].order) + OutboundMinutes(route.segments, route.stops[i].order)),
             AtLeastOne(route.stops[i].nights) as real);
  }

  lemma SharedBy(hours: real, nights: real)
    requires nights > 0.0
    ensures 60.0 * (hours / nights) * nights == 60.0 * hours
  {
    var x := hours / nights;
    assert x * nights == hours;
  }

  // ----- who receives the next night -----

  /** No other recipient has fewer nights, or as many and is cheaper to reach, or equally cheap and earlier. */
  ghost predicate PickedFirst(cost: Cost, nights: map<int, nat>, t: Stop, s: Stop) {
    || Level(nights, t) < Level(nights, s)
    || (Level(nights, t) == Level(nights, s) && cost(t) < cost(s))
    || (Level(nights, t) == Level(nights, s) && cost(t) == cost(s) && t.order <= s.order)
  }

  lemma {:induction false} NextNightGoesTo(cost: Cost, nights: map<int, nat>, recipients: seq<Stop>, s: Stop)
    requires s in recipients
    ensures PickedFirst(cost, nights, Target(cost, nights, recipients), s)
  {
    var n := |recipients| - 1;
    assert recipients == recipients[..n] + [recipients[n]];
    if n > 0 && s in recipients[..n] {
      NextNightGoesTo(cost, nights, recipients[..n], s);
    }
  }

  /** One night more for that stop, and nothing else changes. */
  lemma GiftIs(cost: Cost, nights: map<int, nat>, recipients: seq<Stop>, s: Stop)
    requires recipients != []
    ensures Level(Give(cost, nights, recipients), s) ==
            Level(nights, s) + if s.order == Target(cost, nights, recipients).order then 1 else 0
  {
  }

  // ----- who may receive any -----

  /** A kept overnight stop that is neither the first nor the last of the route. */
  ghost predicate Inner(stops: seq<Stop>, kept: seq<Stop>, s: Stop)
    requires stops != []
  {
    s in kept && s.nights > 0 && s.order != stops[0].order && s.order != stops[|stops| - 1].order
  }

  /** All inner stops receive, and only they; only when there is none do the kept overnight ends. */
  lemma RecipientsIff(stops: seq<Stop>, kept: seq<Stop>, s: Stop)
    requires stops != []
    ensures (exists r :: Inner(stops, kept, r)) ==> (s in Recipients(stops, kept) <==> Inner(stops, kept, s))
    ensures !(exists r :: Inner(stops, kept, r)) ==> (s in Recipients(stops, kept) <==> s in kept && s.nights > 0)
  {
    OvernightIs(kept);
    NotAtIs(Overnight(kept), stops[0].order, stops[|stops| - 1].order);
    var interior := NotAt(Overnight(kept), stops[0].order, stops[|stops| - 1].order);
    if interior != [] {
      assert Inner(stops, kept, interior[0]);
    }
  }

  /** Any drop at all keeps the nights if and only if some overnight stop is kept, or no night is freed. */
  lemma DropConservesIff(route: Route, drop: set<nat>)
    requires DistinctOrders(route.stops) && route.stops != []
    ensures TotalNights(AfterDrop(route, drop)) == TotalNights(route.stops) <==>
            (exists s :: s in Kept(route.stops, drop) && s.nights > 0) || TotalNights(Dropped(route.stops, drop)) == 0
  {
    var kept, freed := Kept(route.stops, drop), TotalNights(Dropped(route.stops, drop));
    KeptIs(route.stops, drop, |route.stops|);
    assert route.stops[..|route.stops|] == route.stops;
    KeptIsDistinct(route.stops, drop);
    OvernightIs(kept);
    NotAtIs(Overnight(kept), route.stops[0].order, route.stops[|route.stops| - 1].order);
    if exists s :: s in kept && s.nights > 0 {
      HandedOutInFull(route, drop);
    } else {
      NothingHandedOut(route, drop);
    }
  }

  lemma HandedOutInFull(route: Route, drop: set<nat>)
    requires DistinctOrders(route.stops) && route.stops != []
    requires Overnight(Kept(route.stops, drop)) != []
    ensures TotalNights(AfterDrop(route, drop)) == TotalNights(Kept(route.stops, drop)) + TotalNights(Dropped(route.stops, drop))
  {
    var kept := Kept(route.stops, drop);
    var recipients := Recipients(route.stops, kept);
    KeptIsDistinct(route.stops, drop);
    forall s | s in recipients
      ensures s in kept
    {
      RecipientsIff(route.stops, kept, s);
    }
    HandOutConserves(CostOf(route), kept, NightsMap(kept), recipients, TotalNights(Dropped(route.stops, drop)));
    RenightedUnchanged(kept);
    TotalIsSum(AfterDrop(route, drop));
    TotalIsSum(kept);
  }

  lemma NothingHandedOut(route: Route, drop: set<nat>)
    requires DistinctOrders(route.stops) && route.stops != []
    requires Overnight(Kept(route.stops, drop)) == []
    ensures TotalNights(AfterDrop(route, drop)) == TotalNights(Kept(route.stops, drop))
  {
    var kept := Kept(route.stops, drop);
    KeptIsDistinct(route.stops, drop);
    assert Recipients(route.stops, kept) == [];
    NobodyToHandTo(CostOf(route), NightsMap(kept), [], TotalNights(Dropped(route.stops, drop)));
    RenightedUnchanged(kept);
  }

  /** Dropped are exactly the stops at the given places. */
  lemma {:induction false} DroppedIff(stops: seq<Stop>, drop: set<nat>, n: nat, s: Stop)
    requires n <= |stops|
    ensures s in DroppedUpTo(stops, drop, n) <==> exists i: nat :: i < n && i in drop && stops[i] == s
  {
    if n > 0 {
      DroppedIff(stops, drop, n - 1, s);
      if n - 1 in drop && stops[n - 1] == s {
        assert s in DroppedUpTo(stops, drop, n);
      }
    }
  }

  // ----- the base of a run -----

  /** The base is the stop of the run with the least burden, the first of them. */
  lemma {:induction false} BaseIsCheapest(route: Route, lo: nat, hi: nat, i: nat)
    requires lo <= i < hi <= |route.stops|
    ensures var b := Base(route, lo, hi);
            BurdenRatio(route, route.stops[b].order) <= BurdenRatio(route, route.stops[i].order) &&
            (i < b ==> BurdenRatio(route, route.stops[b].order) < BurdenRatio(route, route.stops[i].order))
    decreases hi
  {
    if lo + 1 < hi {
      if i < hi - 1 {
        BaseIsCheapest(route, lo, hi - 1, i);
      } else {
        BaseIsCheapest(route, lo, hi - 1, lo);
      }
    }
  }

  /** One of the first `n` stops is folded away, and it is this one. */
  ghost predicate FoldedAway(route: Route, n: nat, s: Stop)
    requires n <= |route.stops|
  {
    exists i :: 0 <= i < n && route.stops[i] == s && Gone(route, i)
  }

  lemma FoldedAwayStep(route: Route, n: nat, s: Stop)
    requires 0 < n <= |route.stops|
    ensures FoldedAway(route, n, s) <==> FoldedAway(route, n - 1, s) || (route.stops[n - 1] == s && Gone(route, n - 1))
  {
  }

  lemma GoneStep(route: Route, n: nat, s: Stop)
    requires 0 < n <= |route.stops|
    ensures s in GoneUpTo(route, n) <==> s in GoneUpTo(route, n - 1) || (route.stops[n - 1] == s && Gone(route, n - 1))
  {
  }

  /** Reported as dropped: exactly the stops of folded runs that are not their base. */
  lemma {:induction false} FoldedAwayIff(route: Route, n: nat, s: Stop)
    requires n <= |route.stops|
    ensures s in GoneUpTo(route, n) <==> FoldedAway(route, n, s)
  {
    if n > 0 {
      FoldedAwayIff(route, n - 1, s);
      FoldedAwayStep(route, n, s);
      GoneStep(route, n, s);
    }
  }

  /** Reported as merged: the base of each run, in order. */
  lemma {:induction false} MergedAre(route: Route, runs: seq<(nat, nat)>, k: nat)
    requires forall j :: 0 <= j < |runs| ==> runs[j].0 < runs[j].1 <= |route.stops|
    ensures |BaseNames(route, runs)| == |runs|
    ensures k < |runs| ==> BaseNames(route, runs)[k] == route.stops[Base(route, runs[k].0, runs[k].1)].name
  {
    if runs != [] {
      MergedAre(route, runs[..|runs| - 1], k);
    }
  }
}
