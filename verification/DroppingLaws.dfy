/** What every drop keeps: the nights, the endpoints, and no new churn; and that the hand-out is max-min fair. */
module DroppingLaws {
  import opened Subsequences
  import opened Route
  import opened Redistribution
  import opened Dropping

  // ----- the stops that remain -----

  lemma {:induction false} KeptIs(stops: seq<Stop>, drop: set<nat>, n: nat)
    requires n <= |stops|
    ensures IsSubseq(KeptUpTo(stops, drop, n), stops[..n])
    ensures TotalNights(KeptUpTo(stops, drop, n)) + TotalNights(DroppedUpTo(stops, drop, n)) == TotalNights(stops[..n])
    ensures OneNightStays(KeptUpTo(stops, drop, n)) <= OneNightStays(stops[..n])
  {
    if n > 0 {
      KeptIs(stops, drop, n - 1);
      assert stops[..n] == stops[..n - 1] + [stops[n - 1]];
      SubseqSnoc(KeptUpTo(stops, drop, n - 1), stops[..n - 1], stops[n - 1]);
      TotalsSnoc(stops[..n - 1], stops[n - 1]);
      TotalsSnoc(KeptUpTo(stops, drop, n - 1), stops[n - 1]);
      TotalsSnoc(DroppedUpTo(stops, drop, n - 1), stops[n - 1]);
    }
  }

  lemma {:induction false} KeptMembers(stops: seq<Stop>, drop: set<nat>, n: nat, i: nat)
    requires i < n <= |stops| && i !in drop
    ensures stops[i] in KeptUpTo(stops, drop, n)
  {
    if i < n - 1 {
      KeptMembers(stops, drop, n - 1, i);
    }
  }

  lemma {:induction false} DroppedCount(stops: seq<Stop>, drop: set<nat>, n: nat)
    requires n <= |stops|
    ensures |DroppedUpTo(stops, drop, n)| <= |set i | i in drop && i < n|
  {
    if n > 0 {
      DroppedCount(stops, drop, n - 1);
      var before, upTo := set i | i in drop && i < n - 1, set i | i in drop && i < n;
      if n - 1 in drop {
        assert upTo == before + {n - 1};
      } else {
        assert upTo == before;
      }
    }
  }

  lemma {:induction false} DistinctOrdersSubseq(xs: seq<Stop>, ys: seq<Stop>)
    requires IsSubseq(xs, ys) && DistinctOrders(ys)
    ensures DistinctOrders(xs)
  {
    if xs != [] {
      if xs[0] == ys[0] {
        DistinctOrdersSubseq(xs[1..], ys[1..]);
        forall j | 1 <= j < |xs|
          ensures xs[0].order != xs[j].order
        {
          SubseqMember(xs[1..], ys[1..], xs[j]);
        }
      } else {
        DistinctOrdersSubseq(xs, ys[1..]);
      }
    }
  }

  lemma {:induction false} KeptEnds(stops: seq<Stop>, drop: set<nat>, n: nat)
    requires 0 < n <= |stops| && 0 !in drop
    ensures KeptUpTo(stops, drop, n) != [] && KeptUpTo(stops, drop, n)[0] == stops[0]
    ensures n - 1 !in drop ==> KeptUpTo(stops, drop, n)[|KeptUpTo(stops, drop, n)| - 1] == stops[n - 1]
    ensures n > 1 && n - 1 !in drop ==> |KeptUpTo(stops, drop, n)| >= 2
  {
    if n > 1 {
      KeptEnds(stops, drop, n - 1);
    } else {
      assert KeptUpTo(stops, drop, 0) == [];
    }
  }

  // ----- who receives -----

  lemma {:induction false} OvernightIs(stops: seq<Stop>)
    ensures IsSubseq(Overnight(stops), stops)
    ensures forall s :: s in Overnight(stops) <==> s in stops && s.nights > 0
  {
    if stops != [] {
      var n := |stops| - 1;
      OvernightIs(stops[..n]);
      SubseqSnoc(Overnight(stops[..n]), stops[..n], stops[n]);
      assert stops == stops[..n] + [stops[n]];
    }
  }

  lemma {:induction false} NotAtIs(stops: seq<Stop>, first: int, last: int)
    ensures IsSubseq(NotAt(stops, first, last), stops)
    ensures forall s :: s in NotAt(stops, first, last) <==> s in stops && s.order != first && s.order != last
  {
    if stops != [] {
      var n := |stops| - 1;
      NotAtIs(stops[..n], first, last);
      SubseqSnoc(NotAt(stops[..n], first, last), stops[..n], stops[n]);
      assert stops == stops[..n] + [stops[n]];
    }
  }

  lemma {:induction false} SubseqTransitive<T>(xs: seq<T>, ys: seq<T>, zs: seq<T>)
    requires IsSubseq(xs, ys) && IsSubseq(ys, zs)
    ensures IsSubseq(xs, zs)
    decreases |zs|
  {
    if xs != [] {
      if ys[0] == zs[0] {
        if xs[0] == ys[0] {
          SubseqTransitive(xs[1..], ys[1..], zs[1..]);
        } else {
          SubseqTransitive(xs, ys[1..], zs[1..]);
        }
      } else {
        SubseqTransitive(xs, ys, zs[1..]);
        assert [zs[0]] + zs[1..] == zs;
        SubseqWiden(xs, zs[1..], zs[0]);
      }
    }
  }

  // ----- levels -----

  function Levels(stops: seq<Stop>, nights: map<int, nat>): seq<nat> {
    NightsOf(Renighted(stops, nights))
  }

  lemma {:induction false} NightsMapIs(stops: seq<Stop>)
    requires DistinctOrders(stops)
    ensures forall i :: 0 <= i < |stops| ==> stops[i].order in NightsMap(stops) && NightsMap(stops)[stops[i].order] == stops[i].nights
  {
    if stops != [] {
      NightsMapIs(stops[..|stops| - 1]);
    }
  }

  lemma RenightedUnchanged(stops: seq<Stop>)
    requires DistinctOrders(stops)
    ensures Renighted(stops, NightsMap(stops)) == stops
  {
    NightsMapIs(stops);
  }

  lemma {:induction false} TotalIsSum(stops: seq<Stop>)
    ensures TotalNights(stops) == Sum(NightsOf(stops))
  {
    if stops != [] {
      TotalIsSum(stops[1..]);
      assert NightsOf(stops)[1..] == NightsOf(stops[1..]);
    }
  }

  lemma TopUpOneLevel(stops: seq<Stop>, nights: map<int, nat>, p: nat, order: int)
    requires DistinctOrders(stops) && p < |stops| && stops[p].order == order
    ensures Levels(stops, nights[order := Level(nights, stops[p]) + 1]) == Levels(stops, nights)[p := Levels(stops, nights)[p] + 1]
  {
  }

  type Invariant = (map<int, nat>, nat) -> bool

  /** Giving the neediest recipient one night more keeps the invariant. */
  ghost predicate KeptByGift(holds: Invariant, cost: Cost, recipients: seq<Stop>, now: map<int, nat>, n: nat)
    requires recipients != []
  {
    holds(now, n) ==> holds(Give(cost, now, recipients), n + 1)
  }

  /** What each night handed out keeps holds of all of them. */
  lemma {:induction false} HandOutInduction(cost: Cost, nights: map<int, nat>, recipients: seq<Stop>, n: nat, holds: Invariant)
    requires recipients != [] && holds(nights, 0)
    requires forall now, k :: KeptByGift(holds, cost, recipients, now, k)
    ensures holds(HandOut(cost, nights, recipients, n), n)
  {
    if n > 0 {
      HandOutInduction(cost, nights, recipients, n - 1, holds);
      assert KeptByGift(holds, cost, recipients, HandOut(cost, nights, recipients, n - 1), n - 1);
    }
  }

  /** Every night handed out lands on exactly one stop. */
  lemma HandOutConserves(cost: Cost, stops: seq<Stop>, nights: map<int, nat>, recipients: seq<Stop>, n: nat)
    requires DistinctOrders(stops) && recipients != []
    requires forall s :: s in recipients ==> s in stops
    ensures Sum(Levels(stops, HandOut(cost, nights, recipients, n))) == Sum(Levels(stops, nights)) + n
  {
    var total := Sum(Levels(stops, nights));
    var holds: Invariant := (now, k) => Sum(Levels(stops, now)) == total + k;
    forall now, k
      ensures KeptByGift(holds, cost, recipients, now, k)
    {
      OneNightMore(stops, now, Target(cost, now, recipients));
    }
    HandOutInduction(cost, nights, recipients, n, holds);
  }

  /** Whoever has been topped up is at most one night above every recipient. */
  lemma HandOutIsFair(cost: Cost, nights: map<int, nat>, recipients: seq<Stop>, n: nat)
    requires DistinctOrders(recipients) && recipients != []
    ensures Balanced(Levels(recipients, nights), Levels(recipients, HandOut(cost, nights, recipients, n)))
  {
    var holds: Invariant := (now, k) => Balanced(Levels(recipients, nights), Levels(recipients, now));
    forall now, k
      ensures KeptByGift(holds, cost, recipients, now, k)
    {
      if holds(now, k) {
        NeediestKeepsBalance(recipients, nights, now, Target(cost, now, recipients));
      }
    }
    HandOutInduction(cost, nights, recipients, n, holds);
  }

  lemma OneNightMore(stops: seq<Stop>, nights: map<int, nat>, t: Stop)
    requires DistinctOrders(stops) && t in stops
    ensures Sum(Levels(stops, nights[t.order := Level(nights, t) + 1])) == Sum(Levels(stops, nights)) + 1
  {
    var p :| 0 <= p < |stops| && stops[p] == t;
    TopUpOneLevel(stops, nights, p, t.order);
    SumUpdate(Levels(stops, nights), p, Levels(stops, nights)[p] + 1);
  }

  lemma NeediestKeepsBalance(recipients: seq<Stop>, start: map<int, nat>, nights: map<int, nat>, t: Stop)
    requires DistinctOrders(recipients) && t in recipients
    requires Balanced(Levels(recipients, start), Levels(recipients, nights))
    requires forall s :: s in recipients ==> Level(nights, t) <= Level(nights, s)
    ensures Balanced(Levels(recipients, start), Levels(recipients, nights[t.order := Level(nights, t) + 1]))
  {
    var p :| 0 <= p < |recipients| && recipients[p] == t;
    var now := Levels(recipients, nights);
    forall j | 0 <= j < |now|
      ensures now[p] <= now[j]
    {
      assert recipients[j] in recipients;
    }
    TopUpOneLevel(recipients, nights, p, t.order);
    TopUpKeepsBalance(Levels(recipients, start), now, p);
  }

  /** Stops that are not recipients keep their nights, and nobody loses any. */
  lemma {:induction false} HandOutOnlyTo(cost: Cost, nights: map<int, nat>, recipients: seq<Stop>, n: nat, s: Stop)
    ensures Level(HandOut(cost, nights, recipients, n), s) >= Level(nights, s)
    ensures (forall r :: r in recipients ==> r.order != s.order) ==> Level(HandOut(cost, nights, recipients, n), s) == Level(nights, s)
  {
    if n > 0 && recipients != [] {
      HandOutOnlyTo(cost, nights, recipients, n - 1, s);
    }
  }

  // ----- churn -----

  function MovesFrom(bed: string, beds: seq<string>): nat
    decreases |beds|
  {
    if beds == [] then 0 else (if bed != beds[0] then 1 else 0) + MovesFrom(beds[0], beds[1..])
  }

  lemma {:induction false} MovesIsMovesFrom(beds: seq<string>)
    requires beds != []
    ensures Moves(beds) == MovesFrom(beds[0], beds[1..])
  {
    if |beds| > 1 {
      MovesIsMovesFrom(beds[1..]);
    }
  }

  lemma FewerMovesFrom(bed: string, xs: seq<string>, ys: seq<string>)
    requires IsSubseq(xs, ys)
    ensures MovesFrom(bed, xs) <= MovesFrom(bed, ys)
    decreases |ys|
  {
    if xs != [] {
      if xs[0] == ys[0] {
        FewerMovesFrom(xs[0], xs[1..], ys[1..]);
      } else {
        FewerMovesFrom(ys[0], xs, ys[1..]);
      }
    }
  }

  /** Skipping some nights' stays never adds a change of bed. */
  lemma {:induction false} FewerMoves(xs: seq<string>, ys: seq<string>)
    requires IsSubseq(xs, ys)
    ensures Moves(xs) <= Moves(ys)
    decreases |ys|
  {
    if xs != [] {
      MovesIsMovesFrom(xs);
      MovesIsMovesFrom(ys);
      if xs[0] == ys[0] {
        FewerMovesFrom(xs[0], xs[1..], ys[1..]);
      } else {
        FewerMovesFrom(ys[0], xs, ys[1..]);
      }
    }
  }

  lemma {:induction false} BedsSubseq(xs: seq<Stop>, ys: seq<Stop>)
    requires IsSubseq(xs, ys)
    ensures IsSubseq(Beds(xs), Beds(ys))
    decreases |ys|
  {
    if xs != [] {
      if xs[0] == ys[0] {
        BedsSubseq(xs[1..], ys[1..]);
      } else {
        BedsSubseq(xs, ys[1..]);
        if ys[0].nights > 0 {
          SubseqWiden(Beds(xs), Beds(ys[1..]), ys[0].bed);
        }
      }
    }
  }

  /** `plan` has the stops of `kept` with the same or more nights, none of them starting from zero. */
  ghost predicate Extends(plan: seq<Stop>, kept: seq<Stop>) {
    && |plan| == |kept|
    && forall i :: 0 <= i < |plan| ==>
         && plan[i] == kept[i].(nights := plan[i].nights)
         && plan[i].nights >= kept[i].nights
         && (kept[i].nights == 0 ==> plan[i].nights == 0)
  }

  lemma {:induction false} ExtendingAddsNoChurn(plan: seq<Stop>, kept: seq<Stop>)
    requires Extends(plan, kept)
    ensures Beds(plan) == Beds(kept) && OneNightStays(plan) <= OneNightStays(kept)
  {
    if plan != [] {
      ExtendingAddsNoChurn(plan[1..], kept[1..]);
    }
  }

  // ----- every admissible drop -----

  /** A stop that may be dropped: overnight, neither first nor last. */
  predicate Droppable(stops: seq<Stop>, i: int) {
    0 < i < |stops| - 1 && stops[i].nights > 0
  }

  /** Some droppable stops go, and at least one stays. */
  ghost predicate Admissible(stops: seq<Stop>, drop: set<nat>) {
    && DistinctOrders(stops)
    && (forall i :: i in drop ==> Droppable(stops, i))
    && (exists j: nat :: Droppable(stops, j) && j !in drop)
  }

  lemma InteriorRecipients(stops: seq<Stop>, drop: set<nat>)
    requires Admissible(stops, drop)
    ensures var kept := Kept(stops, drop);
            var recipients := Recipients(stops, kept);
            && recipients != []
            && DistinctOrders(kept) && DistinctOrders(recipients)
            && forall s :: s in recipients ==> s in kept && s.nights > 0 && s.order != stops[0].order && s.order != stops[|stops| - 1].order
  {
    var j: nat :| Droppable(stops, j) && j !in drop;
    KeptIsDistinct(stops, drop);
    InteriorOf(Kept(stops, drop), stops[0].order, stops[|stops| - 1].order);
    SurvivorIsInterior(stops, drop, j);
  }

  lemma KeptIsDistinct(stops: seq<Stop>, drop: set<nat>)
    requires DistinctOrders(stops)
    ensures DistinctOrders(Kept(stops, drop))
  {
    KeptIs(stops, drop, |stops|);
    assert stops[..|stops|] == stops;
    DistinctOrdersSubseq(Kept(stops, drop), stops);
  }

  lemma SurvivorIsInterior(stops: seq<Stop>, drop: set<nat>, j: nat)
    requires DistinctOrders(stops) && Droppable(stops, j) && j !in drop
    ensures NotAt(Overnight(Kept(stops, drop)), stops[0].order, stops[|stops| - 1].order) != []
  {
    var kept := Kept(stops, drop);
    KeptMembers(stops, drop, |stops|, j);
    OvernightIs(kept);
    NotAtIs(Overnight(kept), stops[0].order, stops[|stops| - 1].order);
    assert stops[j] in Overnight(kept);
    assert stops[j].order != stops[0].order && stops[j].order != stops[|stops| - 1].order;
  }

  lemma InteriorOf(kept: seq<Stop>, first: int, last: int)
    requires DistinctOrders(kept)
    ensures DistinctOrders(NotAt(Overnight(kept), first, last))
    ensures forall s :: s in NotAt(Overnight(kept), first, last) <==> s in kept && s.nights > 0 && s.order != first && s.order != last
  {
    OvernightIs(kept);
    NotAtIs(Overnight(kept), first, last);
    SubseqTransitive(NotAt(Overnight(kept), first, last), Overnight(kept), kept);
    DistinctOrdersSubseq(NotAt(Overnight(kept), first, last), kept);
  }

  lemma DropConservesNights(route: Route, drop: set<nat>)
    requires Admissible(route.stops, drop)
    ensures TotalNights(AfterDrop(route, drop)) == TotalNights(route.stops)
  {
    var kept := Kept(route.stops, drop);
    var freed := TotalNights(Dropped(route.stops, drop));
    InteriorRecipients(route.stops, drop);
    HandOutConserves(CostOf(route), kept, NightsMap(kept), Recipients(route.stops, kept), freed);
    KeptIs(route.stops, drop, |route.stops|);
    assert route.stops[..|route.stops|] == route.stops;
    RenightedUnchanged(kept);
    TotalIsSum(AfterDrop(route, drop));
    TotalIsSum(kept);
  }

  /** Another way of handing the freed nights to the same recipients. */
  ghost predicate Alternative(route: Route, drop: set<nat>, other: seq<nat>)
    requires route.stops != []
  {
    var recipients := Recipients(route.stops, Kept(route.stops, drop));
    AtLeast(other, NightsOf(recipients)) && Sum(other) == Sum(NightsOf(recipients)) + TotalNights(Dropped(route.stops, drop))
  }

  /** The recipients' nights after the hand-out. */
  function RecipientsAfter(route: Route, drop: set<nat>): seq<nat>
    requires route.stops != []
  {
    var kept := Kept(route.stops, drop);
    var recipients := Recipients(route.stops, kept);
    Levels(recipients, HandOut(CostOf(route), NightsMap(kept), recipients, TotalNights(Dropped(route.stops, drop))))
  }

  lemma DropIsBalanced(route: Route, drop: set<nat>)
    requires Admissible(route.stops, drop)
    ensures var before := NightsOf(Recipients(route.stops, Kept(route.stops, drop)));
            && before != [] && Balanced(before, RecipientsAfter(route, drop))
            && Sum(RecipientsAfter(route, drop)) == Sum(before) + TotalNights(Dropped(route.stops, drop))
  {
    var kept := Kept(route.stops, drop);
    var recipients := Recipients(route.stops, kept);
    InteriorRecipients(route.stops, drop);
    var freed := TotalNights(Dropped(route.stops, drop));
    HandOutIsFair(CostOf(route), NightsMap(kept), recipients, freed);
    HandOutConserves(CostOf(route), recipients, NightsMap(kept), recipients, freed);
    RecipientLevels(kept, recipients);
  }

  /** However else the freed nights were handed to the same stops, the shortest stay would be no longer. */
  lemma DropIsMaxMinFair(route: Route, drop: set<nat>, other: seq<nat>)
    requires Admissible(route.stops, drop) && Alternative(route, drop, other)
    ensures RecipientsAfter(route, drop) != [] && other != [] && Least(other) <= Least(RecipientsAfter(route, drop))
  {
    DropIsBalanced(route, drop);
    BalancedIsMaxMin(NightsOf(Recipients(route.stops, Kept(route.stops, drop))), RecipientsAfter(route, drop), other);
  }

  /** Nor would the stays, each counted up to any given length, add up to more. */
  lemma DropIsFairAtEveryLevel(route: Route, drop: set<nat>, other: seq<nat>, t: nat)
    requires Admissible(route.stops, drop) && Alternative(route, drop, other)
    ensures Sum(CappedAt(other, t)) <= Sum(CappedAt(RecipientsAfter(route, drop), t))
  {
    DropIsBalanced(route, drop);
    BalancedIsFairAtEveryLevel(NightsOf(Recipients(route.stops, Kept(route.stops, drop))), RecipientsAfter(route, drop), other, t);
  }

  lemma RecipientLevels(kept: seq<Stop>, recipients: seq<Stop>)
    requires DistinctOrders(kept) && forall s :: s in recipients ==> s in kept
    ensures Levels(recipients, NightsMap(kept)) == NightsOf(recipients)
  {
    NightsMapIs(kept);
    forall i | 0 <= i < |recipients|
      ensures Level(NightsMap(kept), recipients[i]) == recipients[i].nights
    {
      assert recipients[i] in kept;
    }
  }

  lemma DropExtendsKept(route: Route, drop: set<nat>)
    requires Admissible(route.stops, drop)
    ensures Extends(AfterDrop(route, drop), Kept(route.stops, drop))
  {
    var kept := Kept(route.stops, drop);
    var recipients := Recipients(route.stops, kept);
    var freed := TotalNights(Dropped(route.stops, drop));
    InteriorRecipients(route.stops, drop);
    NightsMapIs(kept);
    forall i | 0 <= i < |kept|
      ensures AfterDrop(route, drop)[i].nights >= kept[i].nights
      ensures kept[i].nights == 0 ==> AfterDrop(route, drop)[i].nights == 0
    {
      HandOutOnlyTo(CostOf(route), NightsMap(kept), recipients, freed, kept[i]);
      if kept[i].nights == 0 {
        NotARecipient(kept, recipients, i);
      }
    }
  }

  lemma NotARecipient(kept: seq<Stop>, recipients: seq<Stop>, i: nat)
    requires DistinctOrders(kept) && i < |kept| && kept[i].nights == 0
    requires forall s :: s in recipients ==> s in kept && s.nights > 0
    ensures forall r :: r in recipients ==> r.order != kept[i].order
  {
    forall r | r in recipients
      ensures r.order != kept[i].order
    {
      var j :| 0 <= j < |kept| && kept[j] == r;
    }
  }

  /** The first and the last stop are those of the route, nights included. */
  ghost predicate SameEnds(stops: seq<Stop>, plan: seq<Stop>) {
    stops != [] && |plan| >= 2 && plan[0] == stops[0] && plan[|plan| - 1] == stops[|stops| - 1]
  }

  lemma DropKeepsEndpoints(route: Route, drop: set<nat>)
    requires Admissible(route.stops, drop)
    ensures SameEnds(route.stops, AfterDrop(route, drop))
  {
    var kept := Kept(route.stops, drop);
    KeptEnds(route.stops, drop, |route.stops|);
    EndpointKeepsItsNights(route, drop, 0);
    EndpointKeepsItsNights(route, drop, |kept| - 1);
  }

  /** A stop that is not a recipient comes out of the hand-out as it went in. */
  lemma NonRecipientIsUnchanged(cost: Cost, kept: seq<Stop>, recipients: seq<Stop>, n: nat, p: nat)
    requires DistinctOrders(kept) && p < |kept| && forall r :: r in recipients ==> r.order != kept[p].order
    ensures Renighted(kept, HandOut(cost, NightsMap(kept), recipients, n))[p] == kept[p]
  {
    NightsMapIs(kept);
    HandOutOnlyTo(cost, NightsMap(kept), recipients, n, kept[p]);
  }

  lemma EndpointKeepsItsNights(route: Route, drop: set<nat>, p: nat)
    requires Admissible(route.stops, drop) && p < |Kept(route.stops, drop)|
    requires Kept(route.stops, drop)[p] in {route.stops[0], route.stops[|route.stops| - 1]}
    ensures AfterDrop(route, drop)[p] == Kept(route.stops, drop)[p]
  {
    var kept := Kept(route.stops, drop);
    InteriorRecipients(route.stops, drop);
    NonRecipientIsUnchanged(CostOf(route), kept, Recipients(route.stops, kept), TotalNights(Dropped(route.stops, drop)), p);
  }

  lemma DropAddsNoChurn(route: Route, drop: set<nat>)
    requires Admissible(route.stops, drop)
    ensures Moves(Beds(AfterDrop(route, drop))) <= Moves(Beds(route.stops))
    ensures OneNightStays(AfterDrop(route, drop)) <= OneNightStays(route.stops)
  {
    var stops := route.stops;
    DropExtendsKept(route, drop);
    ExtendingAddsNoChurn(AfterDrop(route, drop), Kept(stops, drop));
    KeptIs(stops, drop, |stops|);
    assert stops[..|stops|] == stops;
    BedsSubseq(Kept(stops, drop), stops);
    FewerMoves(Beds(Kept(stops, drop)), Beds(stops));
  }
}
