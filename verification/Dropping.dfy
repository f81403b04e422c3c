/**
 Dropping stops and handing their nights to the stops that remain (`_drop_stops` in
 `backend/src/jst_api/domain/revision.py`).
 */
module Dropping {
  import opened Route

  const MIN_KEPT_STOPS := 2

  ghost predicate DistinctOrders(stops: seq<Stop>) {
    forall i, j :: 0 <= i < j < |stops| ==> stops[i].order != stops[j].order
  }

  function Names(stops: seq<Stop>): seq<string> {
    seq(|stops|, i requires 0 <= i < |stops| => stops[i].name)
  }

  function NightsOf(stops: seq<Stop>): seq<nat> {
    seq(|stops|, i requires 0 <= i < |stops| => stops[i].nights)
  }

  lemma ColumnsSnoc(stops: seq<Stop>, s: Stop)
    ensures Names(stops + [s]) == Names(stops) + [s.name]
    ensures NightsOf(stops + [s]) == NightsOf(stops) + [s.nights]
  {
  }

  // ----- ranking recipients -----

  function InboundMinutes(segments: seq<Segment>, order: int): nat {
    if segments == [] then 0
    else if segments[0].toOrder == order then segments[0].minutes
    else InboundMinutes(segments[1..], order)
  }

  function OutboundMinutes(segments: seq<Segment>, order: int): nat {
    if segments == [] then 0
    else if segments[0].fromOrder == order then segments[0].minutes
    else OutboundMinutes(segments[1..], order)
  }

  /** Travel hours in and out of a stop per night spent there. */
  function BurdenRatio(route: Route, order: int): real {
    HoursOf(InboundMinutes(route.segments, order) + OutboundMinutes(route.segments, order)) /
    AtLeastOne(NightsAt(route.stops, order)) as real
  }

  /** What a stop costs to reach, for breaking ties; the hand-out works the same for any cost. */
  type Cost = Stop -> real

  function CostOf(route: Route): Cost {
    (s: Stop) => BurdenRatio(route, s.order)
  }

  function Level(nights: map<int, nat>, s: Stop): nat {
    if s.order in nights then nights[s.order] else 0
  }

  /** Fewest nights first, then cheapest to reach, then earliest. */
  predicate Before(cost: Cost, nights: map<int, nat>, a: Stop, b: Stop) {
    var x, y := cost(a), cost(b);
    Level(nights, a) < Level(nights, b) ||
    (Level(nights, a) == Level(nights, b) && (x < y || (x == y && a.order < b.order)))
  }

  function Target(cost: Cost, nights: map<int, nat>, recipients: seq<Stop>): (t: Stop)
    requires recipients != []
    ensures t in recipients
    ensures forall s :: s in recipients ==> Level(nights, t) <= Level(nights, s)
  {
    var n := |recipients| - 1;
    if n == 0 then recipients[0] else
    var best := Target(cost, nights, recipients[..n]);
    assert recipients == recipients[..n] + [recipients[n]];
    if Before(cost, nights, recipients[n], best) then recipients[n] else best
  }

  /** One more night for the neediest recipient. */
  function Give(cost: Cost, nights: map<int, nat>, recipients: seq<Stop>): map<int, nat>
    requires recipients != []
  {
    var t := Target(cost, nights, recipients);
    nights[t.order := Level(nights, t) + 1]
  }

  /** The same `n` times over. */
  function HandOut(cost: Cost, nights: map<int, nat>, recipients: seq<Stop>, n: nat): map<int, nat> {
    if n == 0 || recipients == [] then nights else Give(cost, HandOut(cost, nights, recipients, n - 1), recipients)
  }

  // ----- splitting the route -----

  function KeptUpTo(stops: seq<Stop>, drop: set<nat>, n: nat): seq<Stop>
    requires n <= |stops|
  {
    if n == 0 then [] else
    var before := KeptUpTo(stops, drop, n - 1);
    if n - 1 in drop then before else before + [stops[n - 1]]
  }

  function DroppedUpTo(stops: seq<Stop>, drop: set<nat>, n: nat): seq<Stop>
    requires n <= |stops|
  {
    if n == 0 then [] else
    var before := DroppedUpTo(stops, drop, n - 1);
    if n - 1 in drop then before + [stops[n - 1]] else before
  }

  function Kept(stops: seq<Stop>, drop: set<nat>): seq<Stop> {
    KeptUpTo(stops, drop, |stops|)
  }

  function Dropped(stops: seq<Stop>, drop: set<nat>): seq<Stop> {
    DroppedUpTo(stops, drop, |stops|)
  }

  function NightsMap(stops: seq<Stop>): map<int, nat> {
    if stops == [] then map[] else
    var n := |stops| - 1;
    NightsMap(stops[..n])[stops[n].order := stops[n].nights]
  }

  function Overnight(stops: seq<Stop>): seq<Stop> {
    if stops == [] then [] else
    var n := |stops| - 1;
    if stops[n].nights > 0 then Overnight(stops[..n]) + [stops[n]] else Overnight(stops[..n])
  }

  function NotAt(stops: seq<Stop>, first: int, last: int): seq<Stop> {
    if stops == [] then [] else
    var n := |stops| - 1;
    if stops[n].order != first && stops[n].order != last then NotAt(stops[..n], first, last) + [stops[n]]
    else NotAt(stops[..n], first, last)
  }

  /** Freed nights go to interior stops; to the endpoints only when no interior stop is left. */
  function Recipients(stops: seq<Stop>, kept: seq<Stop>): seq<Stop>
    requires stops != []
  {
    var interior := NotAt(Overnight(kept), stops[0].order, stops[|stops| - 1].order);
    if interior != [] then interior else Overnight(kept)
  }

  function Renighted(stops: seq<Stop>, nights: map<int, nat>): seq<Stop> {
    seq(|stops|, i requires 0 <= i < |stops| => stops[i].(nights := Level(nights, stops[i])))
  }

  /** The stops that remain, with their new nights. */
  function AfterDrop(route: Route, drop: set<nat>): seq<Stop>
    requires route.stops != []
  {
    var kept := Kept(route.stops, drop);
    Renighted(kept, HandOut(CostOf(route), NightsMap(kept), Recipients(route.stops, kept), TotalNights(Dropped(route.stops, drop))))
  }

  method Partition(stops: seq<Stop>, drop: set<nat>) returns (keep: seq<Stop>, gone: seq<Stop>)
    ensures keep == Kept(stops, drop) && gone == Dropped(stops, drop)
  {
    keep, gone := [], [];
    for i := 0 to |stops|
      invariant keep == KeptUpTo(stops, drop, i) && gone == DroppedUpTo(stops, drop, i)
    {
      if i in drop {
        gone := gone + [stops[i]];
      } else {
        keep := keep + [stops[i]];
      }
    }
  }

  /** One freed night at a time, each to the recipient that is best placed at that moment. */
  method Redistribute(cost: Cost, nights: map<int, nat>, recipients: seq<Stop>, orphanNights: nat) returns (current: map<int, nat>)
    ensures current == HandOut(cost, nights, recipients, orphanNights)
  {
    current := nights;
    for k := 0 to orphanNights
      invariant current == HandOut(cost, nights, recipients, k)
    {
      if recipients == [] {
        NobodyToHandTo(cost, nights, recipients, k);
        NobodyToHandTo(cost, nights, recipients, orphanNights);
        return;
      }
      current := Give(cost, current, recipients);
    }
  }

  method DropStops(route: Route, drop: set<nat>) returns (names: seq<string>, nights: seq<nat>, dropped: seq<string>)
    requires route.stops != [] && forall i :: i in drop ==> i < |route.stops|
    ensures |Kept(route.stops, drop)| < MIN_KEPT_STOPS ==> names == [] && nights == [] && dropped == []
    ensures |Kept(route.stops, drop)| >= MIN_KEPT_STOPS ==>
              && names == Names(AfterDrop(route, drop))
              && nights == NightsOf(AfterDrop(route, drop))
              && dropped == Names(Dropped(route.stops, drop))
  {
    var keep, gone := Partition(route.stops, drop);
    if |keep| < MIN_KEPT_STOPS {
      return [], [], [];
    }
    var current := Redistribute(CostOf(route), NightsMap(keep), Recipients(route.stops, keep), TotalNights(gone));
    var plan := Renighted(keep, current);
    return Names(plan), NightsOf(plan), Names(gone);
  }

  lemma NobodyToHandTo(cost: Cost, nights: map<int, nat>, recipients: seq<Stop>, n: nat)
    requires recipients == []
    ensures HandOut(cost, nights, recipients, n) == nights
  {
  }
}
