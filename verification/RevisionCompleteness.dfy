/**
 What is offered, and what is not: every single drop always is, and on a route of many stops the cut
 at eight leaves room for nothing but drops.
 */
module RevisionCompleteness {
  import opened Subsequences
  import opened Sorting
  import opened Route
  import opened Dropping
  import opened DroppingLaws
  import opened Consolidation
  import opened RevisionLaws
  import R = Revision

  // ----- what the candidates are, before the cut -----

  /** The candidate drops exactly these stops, and at least two remain. */
  ghost predicate Drops(route: Route, drop: set<nat>, strategy: string, c: R.Revision) {
    && route.stops != [] && |Kept(route.stops, drop)| >= 2
    && c.strategy == strategy && c.stops == Names(AfterDrop(route, drop)) && c.nights == NightsOf(AfterDrop(route, drop))
    && c.dropped == Names(Dropped(route.stops, drop)) && c.merged == [] && !c.reordered
  }

  /** It drops the `k`th of the stops that save most. */
  ghost predicate SingleAt(route: Route, labels: R.Labels, top: seq<nat>, k: nat, c: R.Revision) {
    k < |top| && top[k] < |route.stops| && Drops(route, {top[k]}, labels.dropOne(route.stops[top[k]].name), c)
  }

  /** It drops the `j`th and the `k`th of them. */
  ghost predicate PairAt(route: Route, labels: R.Labels, top: seq<nat>, j: nat, k: nat, c: R.Revision) {
    && j < k < |top| && top[j] < |route.stops| && top[k] < |route.stops|
    && Drops(route, {top[j], top[k]}, labels.dropTwo(route.stops[top[j]].name, route.stops[top[k]].name), c)
  }

  lemma DropIff(route: Route, drop: set<nat>, strategy: string, c: R.Revision)
    requires route.stops != []
    ensures c in R.DropCandidate(route, drop, strategy) <==> Drops(route, drop, strategy, c)
    ensures |R.DropCandidate(route, drop, strategy)| <= 1
  {
  }

  lemma InBoth<T>(a: seq<T>, b: seq<T>, x: T)
    ensures x in a + b <==> x in a || x in b
  {
  }

  ghost predicate SomeSingle(route: Route, labels: R.Labels, top: seq<nat>, c: R.Revision) {
    exists k: nat :: SingleAt(route, labels, top, k, c)
  }

  lemma SomeSingleStep(route: Route, labels: R.Labels, top: seq<nat>, n: nat, c: R.Revision)
    requires |top| == n + 1
    ensures SomeSingle(route, labels, top, c) <==> SomeSingle(route, labels, top[..n], c) || SingleAt(route, labels, top, n, c)
  {
    if k: nat :| SingleAt(route, labels, top[..n], k, c) {
      assert SingleAt(route, labels, top, k, c);
    }
    if k: nat :| SingleAt(route, labels, top, k, c) {
      assert k < n ==> SingleAt(route, labels, top[..n], k, c);
    }
  }

  lemma {:induction false} SinglesIff(route: Route, labels: R.Labels, top: seq<nat>, c: R.Revision)
    requires R.InRange(top, |route.stops|)
    ensures c in R.SingleDrops(route, labels, top) <==> SomeSingle(route, labels, top, c)
  {
    if top != [] {
      var n := |top| - 1;
      SinglesIff(route, labels, top[..n], c);
      DropIff(route, {top[n]}, labels.dropOne(route.stops[top[n]].name), c);
      SomeSingleStep(route, labels, top, n, c);
    }
  }

  lemma {:induction false} SinglesAreFew(route: Route, labels: R.Labels, top: seq<nat>)
    requires R.InRange(top, |route.stops|)
    ensures |R.SingleDrops(route, labels, top)| <= |top|
  {
    if top != [] {
      SinglesAreFew(route, labels, top[..|top| - 1]);
    }
  }

  /** It drops this stop and the `k`th of `rest`. */
  ghost predicate PairWithAt(route: Route, labels: R.Labels, first: nat, rest: seq<nat>, k: nat, c: R.Revision) {
    && k < |rest| && first < |route.stops| && rest[k] < |route.stops|
    && Drops(route, {first, rest[k]}, labels.dropTwo(route.stops[first].name, route.stops[rest[k]].name), c)
  }

  ghost predicate SomePairWith(route: Route, labels: R.Labels, first: nat, rest: seq<nat>, c: R.Revision) {
    exists k: nat :: PairWithAt(route, labels, first, rest, k, c)
  }

  lemma SomePairWithStep(route: Route, labels: R.Labels, first: nat, rest: seq<nat>, n: nat, c: R.Revision)
    requires |rest| == n + 1
    ensures SomePairWith(route, labels, first, rest, c) <==>
            SomePairWith(route, labels, first, rest[..n], c) || PairWithAt(route, labels, first, rest, n, c)
  {
    if k: nat :| PairWithAt(route, labels, first, rest[..n], k, c) {
      assert PairWithAt(route, labels, first, rest, k, c);
    }
    if k: nat :| PairWithAt(route, labels, first, rest, k, c) {
      assert k < n ==> PairWithAt(route, labels, first, rest[..n], k, c);
    }
  }

  lemma {:induction false} PairsWithIff(route: Route, labels: R.Labels, first: nat, rest: seq<nat>, c: R.Revision)
    requires first < |route.stops| && R.InRange(rest, |route.stops|)
    ensures c in R.PairsWith(route, labels, first, rest) <==> SomePairWith(route, labels, first, rest, c)
  {
    if rest != [] {
      var n := |rest| - 1;
      PairsWithIff(route, labels, first, rest[..n], c);
      DropIff(route, {first, rest[n]}, labels.dropTwo(route.stops[first].name, route.stops[rest[n]].name), c);
      SomePairWithStep(route, labels, first, rest, n, c);
    }
  }

  ghost predicate SomePair(route: Route, labels: R.Labels, top: seq<nat>, n: nat, c: R.Revision) {
    exists j: nat, k: nat :: j < n && PairAt(route, labels, top, j, k, c)
  }

  lemma SomePairStep(route: Route, labels: R.Labels, top: seq<nat>, n: nat, c: R.Revision)
    requires 0 < n <= |top|
    ensures SomePair(route, labels, top, n, c) <==>
            SomePair(route, labels, top, n - 1, c) || SomePairWith(route, labels, top[n - 1], top[n..], c)
  {
    var first, rest := top[n - 1], top[n..];
    if k: nat :| PairWithAt(route, labels, first, rest, k, c) {
      assert PairAt(route, labels, top, n - 1, n + k, c);
    }
    if j: nat, k: nat :| j < n && PairAt(route, labels, top, j, k, c) {
      if j == n - 1 {
        assert PairWithAt(route, labels, first, rest, k - n, c);
      }
    }
  }

  lemma {:induction false} PairsIff(route: Route, labels: R.Labels, top: seq<nat>, n: nat, c: R.Revision)
    requires n <= |top| && R.InRange(top, |route.stops|)
    ensures c in R.PairDrops(route, labels, top, n) <==> SomePair(route, labels, top, n, c)
  {
    if n > 0 {
      PairsIff(route, labels, top, n - 1, c);
      PairsWithIff(route, labels, top[n - 1], top[n..], c);
      SomePairStep(route, labels, top, n, c);
      InBoth(R.PairDrops(route, labels, top, n - 1), R.PairsWith(route, labels, top[n - 1], top[n..]), c);
    }
  }

  /** It folds the runs of single nights, without dropping more stops than may go. */
  ghost predicate IsFold(route: Route, c: R.Revision) {
    && Runs(route.stops) != [] && Folded(route) != [] && c.strategy == "consolidate_one_night_stays"
    && c.stops == Names(Folded(route)) && c.nights == NightsOf(Folded(route))
    && c.dropped == Names(GoneUpTo(route, |route.stops|)) && |c.dropped| <= R.MaxDroppable(route)
    && !c.reordered && c.merged == FoldedInto(route)
  }

  /** The names of the bases the runs are folded into. */
  function FoldedInto(route: Route): seq<string> {
    RunsAreMaximal(route.stops, |route.stops|);
    BaseNames(route, Runs(route.stops))
  }

  lemma FoldIff(route: Route, c: R.Revision)
    ensures c in R.ConsolidateCandidate(route) <==> IsFold(route, c)
  {
  }

  /** It visits the same stops in nearest-neighbour order, which is not the order they have. */
  ghost predicate IsReorder(route: Route, km: Distance, c: R.Revision) {
    && |route.stops| >= 4 && R.Located(route.stops) && R.Orders(R.Reordered(route.stops, km)) != R.Orders(route.stops)
    && c.strategy == "reorder_for_efficiency" && c.stops == Names(R.Reordered(route.stops, km))
    && c.nights == NightsOf(R.Reordered(route.stops, km)) && c.dropped == [] && c.merged == [] && c.reordered
  }

  lemma ReorderIff(route: Route, km: Distance, c: R.Revision)
    ensures c in R.ReorderCandidate(route, km) <==> IsReorder(route, km, c)
  {
  }

  lemma ConsideredDropsIff(route: Route, labels: R.Labels, km: Distance, c: R.Revision)
    ensures var top := R.TopDroppable(route, km);
            c in R.DropCandidates(route, labels, km) <==>
            || (R.MaxDroppable(route) >= 1 && SomeSingle(route, labels, top, c))
            || (R.MaxDroppable(route) >= 2 && SomePair(route, labels, top, |top|, c))
  {
    var top := R.TopDroppable(route, km);
    R.TopIsDroppable(route, km);
    SinglesIff(route, labels, top, c);
    PairsIff(route, labels, top, |top|, c);
    InBoth(R.SingleDrops(route, labels, top), R.PairDrops(route, labels, top, |top|), c);
  }

  /**
   Exactly these are considered: each of the stops that save most dropped alone if one stop may go,
   any two of them if two may, the fold, and on a route that backtracks the reorder.
   */
  lemma ConsideredIff(route: Route, labels: R.Labels, km: Distance, backtracking: bool, c: R.Revision)
    ensures var top := R.TopDroppable(route, km);
            c in R.AllCandidates(route, labels, km, backtracking) <==>
            || (R.MaxDroppable(route) >= 1 && SomeSingle(route, labels, top, c))
            || (R.MaxDroppable(route) >= 2 && SomePair(route, labels, top, |top|, c))
            || IsFold(route, c)
            || (backtracking && IsReorder(route, km, c))
  {
    ConsideredDropsIff(route, labels, km, c);
    FoldIff(route, c);
    ReorderIff(route, km, c);
    InBoth(R.DropCandidates(route, labels, km), R.OtherCandidates(route, km, backtracking), c);
    InBoth(R.ConsolidateCandidate(route), if backtracking then R.ReorderCandidate(route, km) else [], c);
  }

  // ----- the cut at eight -----

  lemma {:induction false} UniquePrefix(cs: seq<R.Revision>, n: nat)
    requires n <= |cs|
    ensures R.Unique(cs[..n]) <= R.Unique(cs)
    ensures |R.Unique(cs)| <= |cs|
  {
    if n < |cs| {
      UniquePrefix(cs[..|cs| - 1], n);
      assert cs[..|cs| - 1][..n] == cs[..n];
    } else {
      assert cs[..n] == cs;
      if cs != [] {
        UniquePrefix(cs[..|cs| - 1], 0);
      }
    }
  }

  /** Some candidate offered has these stops and nights. */
  ghost predicate Offered(all: seq<R.Revision>, c: R.Revision) {
    exists k :: 0 <= k < |Take(R.Unique(all), R.MAX_CANDIDATES)| && R.SamePlan(Take(R.Unique(all), R.MAX_CANDIDATES)[k], c)
  }

  /** The first eight candidates are all offered, whatever comes after them. */
  lemma EarlyIsOffered(all: seq<R.Revision>, p: nat)
    requires p < |all| && p < R.MAX_CANDIDATES
    ensures Offered(all, all[p])
  {
    var early := all[..p + 1];
    assert early[p] == all[p];
    UniqueRepresentsAll(early, all[p]);
    UniquePrefix(all, p + 1);
    UniquePrefix(early, 0);
    var k :| 0 <= k < |R.Unique(early)| && R.SamePlan(R.Unique(early)[k], all[p]);
    assert Take(R.Unique(all), R.MAX_CANDIDATES)[k] == R.Unique(early)[k];
  }

  /** Nothing is cut off if and only if there are at most eight different plans. */
  lemma AllOfferedIff(all: seq<R.Revision>)
    ensures (forall c :: c in all ==> Offered(all, c)) <==> |R.Unique(all)| <= R.MAX_CANDIDATES
  {
    if |R.Unique(all)| <= R.MAX_CANDIDATES {
      forall c | c in all
        ensures Offered(all, c)
      {
        UniqueRepresentsAll(all, c);
        assert Take(R.Unique(all), R.MAX_CANDIDATES) == R.Unique(all);
      }
    } else {
      var ninth := R.Unique(all)[R.MAX_CANDIDATES];
      UniqueIsDrawn(all, R.MAX_CANDIDATES);
      forall k | 0 <= k < R.MAX_CANDIDATES
        ensures !R.SamePlan(R.Unique(all)[k], ninth)
      {
        UniqueHasNoDuplicates(all, k, R.MAX_CANDIDATES);
      }
      assert !Offered(all, ninth);
    }
  }

  /** Dropping any one of the stops that save most is always offered, if a stop may go and two remain. */
  lemma SingleDropsAreOffered(route: Route, labels: R.Labels, km: Distance, backtracking: bool, k: nat)
    requires R.MaxDroppable(route) >= 1 && k < |R.TopDroppable(route, km)|
    requires |Kept(route.stops, {R.TopDroppable(route, km)[k]})| >= 2
    ensures route.stops != []
    ensures exists c: R.Revision :: c.stops == Names(AfterDrop(route, {R.TopDroppable(route, km)[k]})) &&
                                    c.nights == NightsOf(AfterDrop(route, {R.TopDroppable(route, km)[k]})) &&
                                    c in Take(R.Unique(R.AllCandidates(route, labels, km, backtracking)), R.MAX_CANDIDATES)
  {
    var all, top := R.AllCandidates(route, labels, km, backtracking), R.TopDroppable(route, km);
    R.TopIsDroppable(route, km);
    var plan := AfterDrop(route, {top[k]});
    var c := R.Revision(labels.dropOne(route.stops[top[k]].name), Names(plan), NightsOf(plan), Names(Dropped(route.stops, {top[k]})), [], false);
    assert SingleAt(route, labels, top, k, c);
    SinglesIff(route, labels, top, c);
    SinglesAreFew(route, labels, top);
    var singles := R.SingleDrops(route, labels, top);
    var p :| 0 <= p < |singles| && singles[p] == c;
    SinglesComeFirst(route, labels, km, backtracking, p);
    EarlyIsOffered(all, p);
  }

  lemma SinglesComeFirst(route: Route, labels: R.Labels, km: Distance, backtracking: bool, p: nat)
    requires R.MaxDroppable(route) >= 1 && R.InRange(R.TopDroppable(route, km), |route.stops|)
    requires p < |R.SingleDrops(route, labels, R.TopDroppable(route, km))|
    ensures var all, singles := R.AllCandidates(route, labels, km, backtracking), R.SingleDrops(route, labels, R.TopDroppable(route, km));
            p < |all| && all[p] == singles[p]
  {
  }

  // ----- a route of many stops -----

  ghost predicate DistinctStopNames(stops: seq<Stop>) {
    forall i, j :: 0 <= i < j < |stops| ==> stops[i].name != stops[j].name
  }

  lemma {:induction false} KeptNames(stops: seq<Stop>, drop: set<nat>, n: nat, x: string)
    requires n <= |stops|
    ensures x in Names(KeptUpTo(stops, drop, n)) <==> exists i :: 0 <= i < n && i !in drop && stops[i].name == x
  {
    if n > 0 {
      KeptNames(stops, drop, n - 1, x);
      ColumnsSnoc(KeptUpTo(stops, drop, n - 1), stops[n - 1]);
    }
  }

  lemma PlanNames(route: Route, drop: set<nat>)
    requires route.stops != []
    ensures Names(AfterDrop(route, drop)) == Names(Kept(route.stops, drop))
  {
  }

  /** Dropping different stops leaves different names. */
  lemma DifferentDrops(route: Route, a: set<nat>, b: set<nat>, i: nat)
    requires DistinctStopNames(route.stops) && i < |route.stops| && i in a && i !in b
    ensures Names(AfterDrop(route, a)) != Names(AfterDrop(route, b))
  {
    PlanNames(route, a);
    PlanNames(route, b);
    KeptNames(route.stops, a, |route.stops|, route.stops[i].name);
    KeptNames(route.stops, b, |route.stops|, route.stops[i].name);
  }

  /** At least four stops may be dropped. */
  predicate ManyStops(route: Route) {
    |R.OvernightIndices(route.stops)| >= 4
  }

  lemma TopFour(route: Route, km: Distance)
    requires ManyStops(route)
    ensures |R.TopDroppable(route, km)| == 4 && Distinct(R.TopDroppable(route, km)) && R.MaxDroppable(route) >= 2
    ensures R.InRange(R.TopDroppable(route, km), |route.stops|) && |route.stops| >= 4
  {
    var all := R.OvernightIndices(route.stops);
    var ranked := Sort(R.BySaving(route, km), all);
    SortMultiset(R.BySaving(route, km), all);
    assert |ranked| == |multiset(ranked)| == |multiset(all)| == |all|;
    forall x
      ensures multiset(ranked)[x] <= 1
    {
      DistinctMultiset(all, x);
    }
    CountAtMostOneIsDistinct(ranked);
    R.TopIsDroppable(route, km);
    FitsBelow(all, |route.stops|);
  }

  function Below(n: nat): (s: set<nat>)
    ensures |s| == n && forall i: nat :: i in s <==> i < n
  {
    if n == 0 then {} else Below(n - 1) + {n - 1}
  }

  lemma FitsBelow(s: seq<nat>, n: nat)
    requires Distinct(s) && forall i :: 0 <= i < |s| ==> s[i] < n
    ensures |s| <= n
  {
    DistinctFits(s, Below(n));
  }

  lemma EnoughKept(route: Route, drop: set<nat>)
    requires |route.stops| >= 4 && |drop| <= 2
    ensures |Kept(route.stops, drop)| >= 2
  {
    KeptAndDroppedFit(route.stops, drop, |route.stops|);
    DroppedCount(route.stops, drop, |route.stops|);
    SubsetSize((set i | i in drop && i < |route.stops|), drop);
  }

  /** The candidate's plan is what is left when these stops are dropped. */
  ghost predicate LeftBy(route: Route, drop: set<nat>, c: R.Revision) {
    route.stops != [] && c.stops == Names(AfterDrop(route, drop)) && c.nights == NightsOf(AfterDrop(route, drop)) && !c.reordered && c.merged == []
  }

  ghost function LeftByIn(route: Route): (set<nat>, R.Revision) -> bool {
    (drop, c) => LeftBy(route, drop, c)
  }

  lemma OneDrop(route: Route, drop: set<nat>, strategy: string)
    requires |route.stops| >= 4 && |drop| <= 2
    ensures |R.DropCandidate(route, drop, strategy)| == 1 && LeftBy(route, drop, R.DropCandidate(route, drop, strategy)[0])
  {
    EnoughKept(route, drop);
  }

  lemma LastSingle(route: Route, labels: R.Labels, top: seq<nat>) returns (c: R.Revision)
    requires |route.stops| >= 4 && R.InRange(top, |route.stops|) && top != []
    ensures R.SingleDrops(route, labels, top) == R.SingleDrops(route, labels, top[..|top| - 1]) + [c]
    ensures LeftByIn(route)({top[|top| - 1]}, c)
  {
    var n := |top| - 1;
    var strategy := labels.dropOne(route.stops[top[n]].name);
    OneDrop(route, {top[n]}, strategy);
    c := R.DropCandidate(route, {top[n]}, strategy)[0];
  }

  lemma {:induction false} SinglesInOrder(route: Route, labels: R.Labels, top: seq<nat>, k: nat)
    requires |route.stops| >= 4 && R.InRange(top, |route.stops|)
    ensures |R.SingleDrops(route, labels, top)| == |top|
    ensures k < |top| ==> LeftByIn(route)({top[k]}, R.SingleDrops(route, labels, top)[k])
  {
    if top != [] {
      SinglesInOrder(route, labels, top[..|top| - 1], k);
      var c := LastSingle(route, labels, top);
    }
  }

  lemma LastPair(route: Route, labels: R.Labels, first: nat, rest: seq<nat>) returns (c: R.Revision)
    requires |route.stops| >= 4 && first < |route.stops| && R.InRange(rest, |route.stops|) && rest != []
    ensures R.PairsWith(route, labels, first, rest) == R.PairsWith(route, labels, first, rest[..|rest| - 1]) + [c]
    ensures LeftBy(route, {first, rest[|rest| - 1]}, c)
  {
    var n := |rest| - 1;
    var strategy := labels.dropTwo(route.stops[first].name, route.stops[rest[n]].name);
    OneDrop(route, {first, rest[n]}, strategy);
    c := R.DropCandidate(route, {first, rest[n]}, strategy)[0];
  }

  /** One candidate a pair, in order. */
  ghost predicate PairsLeft(route: Route, first: nat, rest: seq<nat>, all: seq<R.Revision>) {
    |all| == |rest| && forall k :: 0 <= k < |rest| ==> LeftBy(route, {first, rest[k]}, all[k])
  }

  lemma PairsLeftSnoc(route: Route, first: nat, rest: seq<nat>, before: seq<R.Revision>, c: R.Revision)
    requires rest != [] && PairsLeft(route, first, rest[..|rest| - 1], before) && LeftBy(route, {first, rest[|rest| - 1]}, c)
    ensures PairsLeft(route, first, rest, before + [c])
  {
  }

  lemma {:induction false} PairsInOrder(route: Route, labels: R.Labels, first: nat, rest: seq<nat>)
    requires |route.stops| >= 4 && first < |route.stops| && R.InRange(rest, |route.stops|)
    ensures PairsLeft(route, first, rest, R.PairsWith(route, labels, first, rest))
  {
    if rest != [] {
      PairsInOrder(route, labels, first, rest[..|rest| - 1]);
      var c := LastPair(route, labels, first, rest);
      PairsLeftSnoc(route, first, rest, R.PairsWith(route, labels, first, rest[..|rest| - 1]), c);
    }
  }

  /** What the first eight candidates drop: the four stops one by one, then pairs. */
  function Picks(t: seq<nat>): (picks: seq<set<nat>>)
    requires |t| == 4
    ensures |picks| == 8
  {
    [{t[0]}, {t[1]}, {t[2]}, {t[3]}, {t[0], t[1]}, {t[0], t[2]}, {t[0], t[3]}, {t[1], t[2]}]
  }

  lemma {:induction false} FirstTwoParts<T>(whole: nat -> seq<T>, part: nat -> seq<T>, n: nat)
    requires n >= 2 && whole(0) == [] && forall k: nat :: k < n ==> whole(k + 1) == whole(k) + part(k)
    ensures part(0) + part(1) <= whole(n)
  {
    if n == 2 {
      assert whole(0 + 1) == whole(0) + part(0) && whole(1 + 1) == whole(1) + part(1);
    } else {
      FirstTwoParts(whole, part, n - 1);
      assert whole(n - 1 + 1) == whole(n - 1) + part(n - 1);
    }
  }

  function PairsUpTo(route: Route, labels: R.Labels, top: seq<nat>): nat -> seq<R.Revision>
    requires R.InRange(top, |route.stops|)
  {
    (k: nat) => if k <= |top| then R.PairDrops(route, labels, top, k) else []
  }

  function PairsFrom(route: Route, labels: R.Labels, top: seq<nat>): nat -> seq<R.Revision>
    requires R.InRange(top, |route.stops|)
  {
    (k: nat) => if k < |top| then R.PairsWith(route, labels, top[k], top[k + 1..]) else []
  }

  lemma OneMoreFirst(route: Route, labels: R.Labels, top: seq<nat>, k: nat)
    requires R.InRange(top, |route.stops|) && k < |top|
    ensures PairsUpTo(route, labels, top)(k + 1) == PairsUpTo(route, labels, top)(k) + PairsFrom(route, labels, top)(k)
  {
  }

  lemma PairsOfFirstTwo(route: Route, labels: R.Labels, top: seq<nat>)
    requires 2 <= |top| && R.InRange(top, |route.stops|)
    ensures PairsFrom(route, labels, top)(0) + PairsFrom(route, labels, top)(1) <= PairsUpTo(route, labels, top)(|top|)
  {
    var whole, part := PairsUpTo(route, labels, top), PairsFrom(route, labels, top);
    forall k: nat | k < |top|
      ensures whole(k + 1) == whole(k) + part(k)
    {
      OneMoreFirst(route, labels, top, k);
    }
    FirstTwoParts(whole, part, |top|);
  }

  lemma FourthOf<T>(a: seq<T>, b: seq<T>, all: seq<T>, k: nat)
    requires |a| == 3 && |b| >= 1 && a + b <= all && k < 4
    ensures |all| >= 4 && all[k] == if k < 3 then a[k] else b[0]
  {
    assert (a + b)[k] == all[k];
  }

  /** What holds of each of the first four pairs, whatever it is. */
  lemma PicksHold<T>(holds: (set<nat>, T) -> bool, t: seq<nat>, zero: seq<T>, one: seq<T>, all: seq<T>, k: nat)
    requires |t| == 4 && |zero| == 3 && |one| >= 1 && zero + one <= all && k < 4
    requires holds({t[0], t[1]}, zero[0]) && holds({t[0], t[2]}, zero[1]) && holds({t[0], t[3]}, zero[2])
    requires holds({t[1], t[2]}, one[0])
    ensures |all| >= 4 && holds(Picks(t)[4 + k], all[k])
  {
    FourthOf(zero, one, all, k);
  }

  lemma PairLeft(route: Route, top: seq<nat>, first: nat, all: seq<R.Revision>, from: nat, k: nat)
    requires from + k < |top| && PairsLeft(route, first, top[from..], all)
    ensures |all| == |top| - from && LeftByIn(route)({first, top[from + k]}, all[k])
  {
    assert top[from..][k] == top[from + k];
  }

  lemma FirstPairs(route: Route, labels: R.Labels, top: seq<nat>, k: nat)
    requires |top| == 4 && |route.stops| >= 4 && R.InRange(top, |route.stops|) && k < 4
    ensures |R.PairDrops(route, labels, top, |top|)| >= 4
    ensures LeftByIn(route)(Picks(top)[4 + k], R.PairDrops(route, labels, top, |top|)[k])
  {
    PairsOfFirstTwo(route, labels, top);
    PairsInOrder(route, labels, top[0], top[1..]);
    PairsInOrder(route, labels, top[1], top[2..]);
    var zero, one := R.PairsWith(route, labels, top[0], top[1..]), R.PairsWith(route, labels, top[1], top[2..]);
    PairLeft(route, top, top[0], zero, 1, 0);
    PairLeft(route, top, top[0], zero, 1, 1);
    PairLeft(route, top, top[0], zero, 1, 2);
    PairLeft(route, top, top[1], one, 2, 0);
    PicksHold(LeftByIn(route), top, zero, one, R.PairDrops(route, labels, top, |top|), k);
  }

  lemma DropsComeFirst(route: Route, labels: R.Labels, km: Distance, backtracking: bool)
    requires R.MaxDroppable(route) >= 2 && R.InRange(R.TopDroppable(route, km), |route.stops|)
    ensures var top := R.TopDroppable(route, km);
            R.SingleDrops(route, labels, top) + R.PairDrops(route, labels, top, |top|) <=
            R.AllCandidates(route, labels, km, backtracking)
  {
  }

  /** The `n`th of eight, four from either list. */
  lemma EighthOf<T>(a: seq<T>, b: seq<T>, all: seq<T>, n: nat)
    requires |a| == 4 && |b| >= 4 && a + b <= all && n < 8
    ensures |all| >= 8 && all[n] == if n < 4 then a[n] else b[n - 4]
  {
    assert (a + b)[n] == all[n];
  }

  /** What holds of the four single drops and the first four pairs, whatever it is, holds of the first eight candidates. */
  lemma EightHold<T>(holds: (set<nat>, T) -> bool, t: seq<nat>, singles: seq<T>, pairs: seq<T>, all: seq<T>, n: nat)
    requires |t| == 4 && |singles| == 4 && |pairs| >= 4 && singles + pairs <= all && n < 8
    requires n < 4 ==> holds({t[n]}, singles[n])
    requires n >= 4 ==> holds(Picks(t)[4 + (n - 4)], pairs[n - 4])
    ensures |all| >= 8 && holds(Picks(t)[n], all[n])
  {
    EighthOf(singles, pairs, all, n);
  }

  lemma EightOf(route: Route, labels: R.Labels, top: seq<nat>, all: seq<R.Revision>, n: nat)
    requires |top| == 4 && |route.stops| >= 4 && R.InRange(top, |route.stops|) && n < 8
    requires R.SingleDrops(route, labels, top) + R.PairDrops(route, labels, top, |top|) <= all
    ensures |all| >= 8 && LeftByIn(route)(Picks(top)[n], all[n])
  {
    SinglesInOrder(route, labels, top, n);
    FirstPairs(route, labels, top, if n < 4 then 0 else n - 4);
    EightHold(LeftByIn(route), top, R.SingleDrops(route, labels, top), R.PairDrops(route, labels, top, |top|), all, n);
  }

  lemma FirstEight(route: Route, labels: R.Labels, km: Distance, backtracking: bool, n: nat)
    requires ManyStops(route) && n < 8
    ensures |R.TopDroppable(route, km)| == 4 && |R.AllCandidates(route, labels, km, backtracking)| >= 8
    ensures LeftByIn(route)(Picks(R.TopDroppable(route, km))[n], R.AllCandidates(route, labels, km, backtracking)[n])
  {
    TopFour(route, km);
    DropsComeFirst(route, labels, km, backtracking);
    EightOf(route, labels, R.TopDroppable(route, km), R.AllCandidates(route, labels, km, backtracking), n);
  }

  lemma PicksDiffer(t: seq<nat>, m: nat, n: nat) returns (i: nat)
    requires |t| == 4 && Distinct(t) && m < n < 8
    ensures i in t && (i in Picks(t)[m]) != (i in Picks(t)[n])
  {
    if m < 4 && n < 4 {
      i := t[m];
    } else if m < 4 {
      i := if n == 7 then (if m == 1 then t[2] else t[1]) else if m == 0 then t[n - 3] else t[0];
    } else {
      i := if n == 7 then t[0] else t[m - 3];
    }
  }

  lemma EightDifferentPlans(route: Route, labels: R.Labels, km: Distance, backtracking: bool, m: nat, n: nat)
    requires ManyStops(route) && DistinctStopNames(route.stops) && m < n < 8
    ensures |R.AllCandidates(route, labels, km, backtracking)| >= 8
    ensures !R.SamePlan(R.AllCandidates(route, labels, km, backtracking)[m], R.AllCandidates(route, labels, km, backtracking)[n])
  {
    var top := R.TopDroppable(route, km);
    TopFour(route, km);
    FirstEight(route, labels, km, backtracking, m);
    FirstEight(route, labels, km, backtracking, n);
    var i := PicksDiffer(top, m, n);
    if i in Picks(top)[m] {
      DifferentDrops(route, Picks(top)[m], Picks(top)[n], i);
    } else {
      DifferentDrops(route, Picks(top)[n], Picks(top)[m], i);
    }
  }

  lemma {:induction false} UniqueKeepsDifferent(cs: seq<R.Revision>)
    requires forall m, n :: 0 <= m < n < |cs| ==> !R.SamePlan(cs[m], cs[n])
    ensures R.Unique(cs) == cs
  {
    if cs != [] {
      UniqueKeepsDifferent(cs[..|cs| - 1]);
    }
  }

  /**
   With four stops or more that may go, all named differently, the eight places are taken by the four
   single drops and the first four pairs: the fold and the reorder are considered but never offered.
   */
  lemma LongRoutesAreOfferedDropsOnly(route: Route, labels: R.Labels, km: Distance, backtracking: bool)
    requires ManyStops(route) && DistinctStopNames(route.stops)
    ensures var offered := Take(R.Unique(R.AllCandidates(route, labels, km, backtracking)), R.MAX_CANDIDATES);
            && |R.TopDroppable(route, km)| == 4 && |offered| == 8
            && forall n :: 0 <= n < 8 ==> LeftBy(route, Picks(R.TopDroppable(route, km))[n], offered[n])
  {
    var all := R.AllCandidates(route, labels, km, backtracking);
    FirstEight(route, labels, km, backtracking, 0);
    forall m: nat, n: nat | m < n < 8
      ensures !R.SamePlan(all[..8][m], all[..8][n])
    {
      EightDifferentPlans(route, labels, km, backtracking, m, n);
    }
    UniqueKeepsDifferent(all[..8]);
    UniquePrefix(all, 8);
    assert Take(R.Unique(all), 8) == all[..8];
    forall n: nat | n < 8
      ensures LeftBy(route, Picks(R.TopDroppable(route, km))[n], Take(R.Unique(all), 8)[n])
    {
      FirstEight(route, labels, km, backtracking, n);
    }
  }
}
