/**
 Generating structural revisions of a route and choosing one (`generate_candidates`, `choose_best`
 and their helpers in `backend/src/jst_api/domain/revision.py`).
 */
module Revision {
  import opened Wrappers
  import opened Subsequences
  import opened Sorting
  import opened Route
  import opened Dropping
  import opened DroppingLaws
  import opened Consolidation

  const MAX_CANDIDATES := 8
  const TOP_N_FOR_PAIRS := 4
  const DROP_PENALTY := 0.35

  datatype Revision = Revision(
    strategy: string,
    stops: seq<string>,
    nights: seq<nat>,
    dropped: seq<string>,
    merged: seq<string>,
    reordered: bool)

  /** The two things a candidate's strategy name is spelled from. */
  datatype Labels = Labels(dropOne: string -> string, dropTwo: (string, string) -> string)

  // ----- reordering -----

  function NearestIndex(at: LatLon, remaining: seq<Stop>, km: Distance): (i: nat)
    requires remaining != [] && forall s :: s in remaining ==> s.coords.Some?
    ensures i < |remaining|
    ensures forall j :: 0 <= j < |remaining| ==> km(at, remaining[i].coords.value) <= km(at, remaining[j].coords.value)
    ensures forall j :: 0 <= j < i ==> km(at, remaining[i].coords.value) < km(at, remaining[j].coords.value)
  {
    var n := |remaining| - 1;
    assert remaining[n] in remaining;
    if n == 0 then 0 else
    var i := NearestIndex(at, remaining[..n], km);
    assert remaining[i] in remaining;
    if km(at, remaining[n].coords.value) < km(at, remaining[i].coords.value) then n else i
  }

  predicate Located(stops: seq<Stop>) {
    forall s :: s in stops ==> s.coords.Some?
  }

  /** Always on to the nearest stop not yet visited. */
  function NearestOrder(at: LatLon, remaining: seq<Stop>, km: Distance): seq<Stop>
    requires Located(remaining)
    decreases |remaining|
  {
    if remaining == [] then [] else
    var i := NearestIndex(at, remaining, km);
    assert remaining[i] in remaining;
    [remaining[i]] + NearestOrder(remaining[i].coords.value, RemoveAt(remaining, i), km)
  }

  function Reordered(stops: seq<Stop>, km: Distance): seq<Stop>
    requires |stops| >= 2 && Located(stops)
  {
    assert stops[0] in stops;
    [stops[0]] + NearestOrder(stops[0].coords.value, stops[1..|stops| - 1], km) + [stops[|stops| - 1]]
  }

  function Orders(stops: seq<Stop>): seq<int> {
    seq(|stops|, i requires 0 <= i < |stops| => stops[i].order)
  }

  /** Offered only when every stop is located, there are at least two interior stops, and the order changes. */
  predicate CanReorder(stops: seq<Stop>, km: Distance) {
    |stops| >= 4 && Located(stops) && Orders(Reordered(stops, km)) != Orders(stops)
  }

  lemma NearestComesNext(ordered: seq<Stop>, at: LatLon, remaining: seq<Stop>, km: Distance)
    requires Located(remaining) && remaining != []
    ensures var i := NearestIndex(at, remaining, km);
            && remaining[i] in remaining
            && ordered + NearestOrder(at, remaining, km) ==
               ordered + [remaining[i]] + NearestOrder(remaining[i].coords.value, RemoveAt(remaining, i), km)
  {
  }

  /** Always on to the nearest stop not yet visited. */
  method NearestNeighbour(start: LatLon, stops: seq<Stop>, km: Distance) returns (ordered: seq<Stop>)
    requires Located(stops)
    ensures ordered == NearestOrder(start, stops, km)
  {
    var at, remaining := start, stops;
    ordered := [];
    while remaining != []
      invariant Located(remaining)
      invariant ordered + NearestOrder(at, remaining, km) == NearestOrder(start, stops, km)
      decreases |remaining|
    {
      var i := NearestIndex(at, remaining, km);
      NearestComesNext(ordered, at, remaining, km);
      ordered := ordered + [remaining[i]];
      at := remaining[i].coords.value;
      remaining := RemoveAt(remaining, i);
    }
  }

  method ReorderForEfficiency(route: Route, km: Distance) returns (plan: Option<seq<Stop>>)
    ensures plan == if CanReorder(route.stops, km) then Some(Reordered(route.stops, km)) else None
  {
    var stops := route.stops;
    if |stops| < 4 {
      return None;
    }
    if !Located(stops) {
      return None;
    }
    assert stops[0] in stops;
    var ordered := NearestNeighbour(stops[0].coords.value, stops[1..|stops| - 1], km);
    var newStops := [stops[0]] + ordered + [stops[|stops| - 1]];
    if Orders(newStops) == Orders(stops) {
      return None;
    }
    return Some(newStops);
  }

  // ----- ranking the stops that may go -----

  predicate InRange(indices: seq<nat>, n: nat) {
    forall k :: 0 <= k < |indices| ==> indices[k] < n
  }

  function DroppableUpTo(stops: seq<Stop>, n: nat): (r: seq<nat>)
    requires n <= |stops|
    ensures forall i :: i in r <==> i < n && Droppable(stops, i)
    ensures InRange(r, n)
    ensures forall j, k :: 0 <= j < k < |r| ==> r[j] < r[k]
  {
    if n == 0 then [] else
    var before := DroppableUpTo(stops, n - 1);
    if Droppable(stops, n - 1) then before + [n - 1] else before
  }

  /** `_overnight_indices`. */
  function OvernightIndices(stops: seq<Stop>): seq<nat> {
    DroppableUpTo(stops, |stops|)
  }

  function MaxDroppable(route: Route): nat {
    |OvernightIndices(route.stops)| / 2
  }

  function TouchingMinutes(segments: seq<Segment>, order: int): nat {
    if segments == [] then 0 else
    (if segments[0].toOrder == order || segments[0].fromOrder == order then segments[0].minutes else 0) +
    TouchingMinutes(segments[1..], order)
  }

  function BypassSpeed(distance: real): real {
    if distance <= 120.0 then 60.0 else if distance <= 600.0 then 120.0 else 150.0
  }

  /** Minutes saved by dropping a stop: travel removed, less an estimate of the leg that bypasses it. */
  function MarginalSaving(route: Route, i: nat, km: Distance): real {
    if i == 0 || i + 1 >= |route.stops| then 0.0 else
    var removed := TouchingMinutes(route.segments, route.stops[i].order) as real;
    var before, after := route.stops[i - 1].coords, route.stops[i + 1].coords;
    if before.None? || after.None? then removed * 0.5 else
    var distance := km(before.value, after.value);
    removed - (distance / BypassSpeed(distance) * 60.0 + 35.0)
  }

  /** Biggest saving first, earlier stop first among equals. */
  function BySaving(route: Route, km: Distance): (nat, nat) -> bool {
    (i: nat, j: nat) =>
      MarginalSaving(route, i, km) > MarginalSaving(route, j, km) ||
      (MarginalSaving(route, i, km) == MarginalSaving(route, j, km) && i <= j)
  }

  function TopDroppable(route: Route, km: Distance): seq<nat> {
    var ranked := Sort(BySaving(route, km), OvernightIndices(route.stops));
    Take(ranked, TOP_N_FOR_PAIRS)
  }

  // ----- the candidates, before duplicates are removed -----

  /** The candidate that drops these stops, if at least two remain. */
  function DropCandidate(route: Route, drop: set<nat>, strategy: string): seq<Revision>
    requires route.stops != []
  {
    if |Kept(route.stops, drop)| < MIN_KEPT_STOPS then [] else
    var plan := AfterDrop(route, drop);
    [Revision(strategy, Names(plan), NightsOf(plan), Names(Dropped(route.stops, drop)), [], false)]
  }

  function SingleDrops(route: Route, labels: Labels, top: seq<nat>): seq<Revision>
    requires InRange(top, |route.stops|)
  {
    if top == [] then [] else
    var n := |top| - 1;
    SingleDrops(route, labels, top[..n]) + DropCandidate(route, {top[n]}, labels.dropOne(route.stops[top[n]].name))
  }

  function PairsWith(route: Route, labels: Labels, first: nat, rest: seq<nat>): seq<Revision>
    requires first < |route.stops| && InRange(rest, |route.stops|)
  {
    if rest == [] then [] else
    var n := |rest| - 1;
    PairsWith(route, labels, first, rest[..n]) +
    DropCandidate(route, {first, rest[n]}, labels.dropTwo(route.stops[first].name, route.stops[rest[n]].name))
  }

  /** Pairs whose first member is among the first `n` of `top`. */
  function PairDrops(route: Route, labels: Labels, top: seq<nat>, n: nat): seq<Revision>
    requires n <= |top| && InRange(top, |route.stops|)
  {
    if n == 0 then [] else
    PairDrops(route, labels, top, n - 1) + PairsWith(route, labels, top[n - 1], top[n..])
  }

  function ConsolidateCandidate(route: Route): seq<Revision> {
    var dropped := Names(GoneUpTo(route, |route.stops|));
    if Runs(route.stops) == [] || Folded(route) == [] || |dropped| > MaxDroppable(route) then [] else
    RunsAreMaximal(route.stops, |route.stops|);
    [Revision("consolidate_one_night_stays", Names(Folded(route)), NightsOf(Folded(route)), dropped,
              BaseNames(route, Runs(route.stops)), false)]
  }

  function ReorderCandidate(route: Route, km: Distance): seq<Revision> {
    if !CanReorder(route.stops, km) then [] else
    var plan := Reordered(route.stops, km);
    [Revision("reorder_for_efficiency", Names(plan), NightsOf(plan), [], [], true)]
  }

  lemma TopIsDroppable(route: Route, km: Distance)
    ensures InRange(TopDroppable(route, km), |route.stops|)
    ensures forall k :: 0 <= k < |TopDroppable(route, km)| ==> Droppable(route.stops, TopDroppable(route, km)[k])
  {
    var ranked := Sort(BySaving(route, km), OvernightIndices(route.stops));
    forall k | 0 <= k < |TopDroppable(route, km)|
      ensures TopDroppable(route, km)[k] < |route.stops| && Droppable(route.stops, TopDroppable(route, km)[k])
    {
      SortElements(BySaving(route, km), OvernightIndices(route.stops), ranked[k]);
    }
  }

  lemma SavingOrder(route: Route, km: Distance)
    ensures TotalOrder(BySaving(route, km))
  {
  }

  /** A droppable stop is left out only when four are taken, and saves no more than any of these. */
  lemma TopSavesMost(route: Route, km: Distance, i: nat, k: nat)
    requires k < |TopDroppable(route, km)|
    requires Droppable(route.stops, i) && i !in TopDroppable(route, km)
    ensures |TopDroppable(route, km)| == TOP_N_FOR_PAIRS
    ensures MarginalSaving(route, i, km) <= MarginalSaving(route, TopDroppable(route, km)[k], km)
  {
    var le, all := BySaving(route, km), OvernightIndices(route.stops);
    var ranked := Sort(le, all);
    SavingOrder(route, km);
    SortSorted(le, all);
    SortElements(le, all, i);
    var j := IndexIn(ranked, i);
    TakeHolds(ranked, TOP_N_FOR_PAIRS, j);
    assert le(ranked[k], ranked[j]);
  }

  // ----- what dropping a stop is estimated to save -----

  lemma NothingTouches(order: int)
    ensures TouchingMinutes([], order) == 0
  {
  }

  /** Every hop to or from the stop counts once, with all its minutes, and no other hop counts. */
  lemma {:induction false} TouchingWithout(segments: seq<Segment>, order: int, i: nat)
    requires i < |segments|
    ensures TouchingMinutes(segments, order) - TouchingMinutes(RemoveAt(segments, i), order) ==
            if order in {segments[i].fromOrder, segments[i].toOrder} then segments[i].minutes else 0
  {
    if i == 0 {
      assert RemoveAt(segments, 0) == segments[1..];
    } else {
      TouchingWithout(segments[1..], order, i - 1);
      assert RemoveAt(segments, i) == [segments[0]] + RemoveAt(segments[1..], i - 1);
    }
  }

  /** The bypass: 35 minutes, and one, a half or two fifths of a minute a kilometre, the farther the faster. */
  lemma SavingInMinutes(route: Route, i: nat, km: Distance)
    requires 0 < i < |route.stops| - 1 && route.stops[i - 1].coords.Some? && route.stops[i + 1].coords.Some?
    ensures var d := km(route.stops[i - 1].coords.value, route.stops[i + 1].coords.value);
            MarginalSaving(route, i, km) + 35.0 == TouchingMinutes(route.segments, route.stops[i].order) as real -
            (if d > 600.0 then 0.4 * d else if d > 120.0 then 0.5 * d else d)
  {
  }

  /** Without the whereabouts of both neighbours the bypass is taken to cost half of what is removed. */
  lemma SavingUnlocated(route: Route, i: nat, km: Distance)
    requires 0 < i < |route.stops| - 1 && (route.stops[i - 1].coords == None || route.stops[i + 1].coords == None)
    ensures 2.0 * MarginalSaving(route, i, km) == TouchingMinutes(route.segments, route.stops[i].order) as real
  {
  }

  /** Half of the interior overnight stops may go, rounded down. */
  lemma HalfMayGo(route: Route)
    ensures var droppable := set i: nat | i < |route.stops| && Droppable(route.stops, i);
            2 * MaxDroppable(route) <= |droppable| <= 2 * MaxDroppable(route) + 1
  {
    var all, droppable := OvernightIndices(route.stops), set i: nat | i < |route.stops| && Droppable(route.stops, i);
    DistinctFits(all, droppable);
    SetFits(droppable, all);
  }

  lemma {:induction false} SetFits(s: set<nat>, all: seq<nat>)
    requires forall i :: i in s ==> i in all
    ensures |s| <= |all|
    decreases |all|
  {
    if all != [] {
      assert all == [all[0]] + all[1..];
      SetFits(s - {all[0]}, all[1..]);
      assert s <= (s - {all[0]}) + {all[0]};
      SubsetSize(s, (s - {all[0]}) + {all[0]});
    }
  }

  /** Single drops first, then pairs, as far as the limit allows. */
  function DropCandidates(route: Route, labels: Labels, km: Distance): seq<Revision> {
    TopIsDroppable(route, km);
    var top := TopDroppable(route, km);
    if MaxDroppable(route) < 1 then []
    else if MaxDroppable(route) < 2 then SingleDrops(route, labels, top)
    else SingleDrops(route, labels, top) + PairDrops(route, labels, top, |top|)
  }

  function OtherCandidates(route: Route, km: Distance, backtracking: bool): seq<Revision> {
    ConsolidateCandidate(route) + (if backtracking then ReorderCandidate(route, km) else [])
  }

  function AllCandidates(route: Route, labels: Labels, km: Distance, backtracking: bool): seq<Revision> {
    DropCandidates(route, labels, km) + OtherCandidates(route, km, backtracking)
  }

  // ----- duplicates -----

  predicate SamePlan(a: Revision, b: Revision) {
    a.stops == b.stops && a.nights == b.nights
  }

  /** The first of every group of candidates with the same stops and nights. */
  function Unique(candidates: seq<Revision>): seq<Revision> {
    if candidates == [] then [] else
    var n := |candidates| - 1;
    var before := Unique(candidates[..n]);
    if exists c :: c in candidates[..n] && SamePlan(c, candidates[n]) then before else before + [candidates[n]]
  }

  method Deduplicate(candidates: seq<Revision>) returns (unique: seq<Revision>)
    ensures unique == Unique(candidates)
  {
    var seen: set<(seq<string>, seq<nat>)> := {};
    unique := [];
    for i := 0 to |candidates|
      invariant unique == Unique(candidates[..i])
      invariant forall key :: key in seen <==> exists c :: c in candidates[..i] && key == (c.stops, c.nights)
    {
      var c := candidates[i];
      assert candidates[..i + 1] == candidates[..i] + [c];
      assert candidates[..i + 1][..i] == candidates[..i];
      if (c.stops, c.nights) in seen {
        continue;
      }
      seen := seen + {(c.stops, c.nights)};
      unique := unique + [c];
    }
    assert candidates[..|candidates|] == candidates;
  }

  method AddDrop(route: Route, candidates: seq<Revision>, drop: set<nat>, strategy: string) returns (r: seq<Revision>)
    requires route.stops != [] && forall i :: i in drop ==> i < |route.stops|
    ensures r == candidates + DropCandidate(route, drop, strategy)
  {
    var names, nights, dropped := DropStops(route, drop);
    if names != [] {
      r := candidates + [Revision(strategy, names, nights, dropped, [], false)];
    } else {
      r := candidates;
    }
  }

  method OfferSingleDrops(route: Route, labels: Labels, top: seq<nat>) returns (candidates: seq<Revision>)
    requires InRange(top, |route.stops|)
    ensures candidates == SingleDrops(route, labels, top)
  {
    candidates := [];
    for k := 0 to |top|
      invariant candidates == SingleDrops(route, labels, top[..k])
    {
      assert top[..k + 1][..k] == top[..k];
      candidates := AddDrop(route, candidates, {top[k]}, labels.dropOne(route.stops[top[k]].name));
    }
    assert top[..|top|] == top;
  }

  method OfferPairsWith(route: Route, labels: Labels, first: nat, rest: seq<nat>) returns (candidates: seq<Revision>)
    requires first < |route.stops| && InRange(rest, |route.stops|)
    ensures candidates == PairsWith(route, labels, first, rest)
  {
    candidates := [];
    for k := 0 to |rest|
      invariant candidates == PairsWith(route, labels, first, rest[..k])
    {
      assert rest[..k + 1][..k] == rest[..k];
      candidates := AddDrop(route, candidates, {first, rest[k]},
                            labels.dropTwo(route.stops[first].name, route.stops[rest[k]].name));
    }
    assert rest[..|rest|] == rest;
  }

  method OfferPairDrops(route: Route, labels: Labels, top: seq<nat>) returns (candidates: seq<Revision>)
    requires InRange(top, |route.stops|)
    ensures candidates == PairDrops(route, labels, top, |top|)
  {
    candidates := [];
    for i := 0 to |top|
      invariant candidates == PairDrops(route, labels, top, i)
    {
      var pairs := OfferPairsWith(route, labels, top[i], top[i + 1..]);
      candidates := candidates + pairs;
    }
  }

  method OfferDrops(route: Route, labels: Labels, km: Distance) returns (candidates: seq<Revision>)
    ensures candidates == DropCandidates(route, labels, km)
  {
    candidates := [];
    var limit := MaxDroppable(route);
    if limit >= 1 {
      TopIsDroppable(route, km);
      var top := TopDroppable(route, km);
      candidates := OfferSingleDrops(route, labels, top);
      if limit >= 2 {
        var pairs := OfferPairDrops(route, labels, top);
        candidates := candidates + pairs;
      }
    }
  }

  method OfferOthers(route: Route, km: Distance, backtracking: bool) returns (candidates: seq<Revision>)
    ensures candidates == OtherCandidates(route, km, backtracking)
  {
    candidates := [];
    var names, nights, dropped, merged := ConsolidateOneNighters(route);
    if names != [] && |dropped| <= MaxDroppable(route) {
      candidates := candidates + [Revision("consolidate_one_night_stays", names, nights, dropped, merged, false)];
    }
    if backtracking {
      var plan := ReorderForEfficiency(route, km);
      if plan.Some? {
        candidates := candidates + [Revision("reorder_for_efficiency", Names(plan.value), NightsOf(plan.value), [], [], true)];
      }
    }
  }

  method GenerateCandidates(route: Route, labels: Labels, km: Distance, backtracking: bool) returns (result: seq<Revision>)
    ensures result == Take(Unique(AllCandidates(route, labels, km, backtracking)), MAX_CANDIDATES)
  {
    var drops := OfferDrops(route, labels, km);
    var others := OfferOthers(route, km, backtracking);
    var unique := Deduplicate(drops + others);
    return Take(unique, MAX_CANDIDATES);
  }
}
