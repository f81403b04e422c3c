/**
 Scoring re-costed candidates and choosing one (`score_candidate`, `choose_best` in
 `backend/src/jst_api/domain/revision.py`), and what a choice is worth.
 */
module Choice {
  import opened Wrappers
  import opened Rounding
  import opened Subsequences
  import opened Sorting
  import opened Route
  import opened Dropping
  import opened DroppingLaws
  import opened Redistribution
  import R = Revision
  import opened RevisionLaws

  class Candidate {
    const plan: R.Revision
    var load: Option<TravelLoad>
    var objective: real

    constructor (plan: R.Revision)
      ensures this.plan == plan && load == None && objective == 0.0
    {
      this.plan := plan;
      load, objective := None, 0.0;
    }
  }

  function Objective(plan: R.Revision, load: TravelLoad): real {
    Round(load.transitHoursPerNight + R.DROP_PENALTY * |plan.dropped| as real, 10000)
  }

  /** Lower objective, then fewer dropped stops, then strategy name. */
  predicate NoWorse(a: real, p: R.Revision, b: real, q: R.Revision) {
    a < b || (a == b && (|p.dropped| < |q.dropped| || (|p.dropped| == |q.dropped| && Alphabetical(p.strategy, q.strategy))))
  }

  lemma NoWorseOrder(a: real, p: R.Revision, b: real, q: R.Revision, c: real, r: R.Revision)
    ensures NoWorse(a, p, a, p)
    ensures NoWorse(a, p, b, q) || NoWorse(b, q, a, p)
    ensures NoWorse(a, p, b, q) && NoWorse(b, q, c, r) ==> NoWorse(a, p, c, r)
  {
    AlphabeticalOrder(p.strategy, q.strategy, r.strategy);
  }

  /** `score_candidate`; None stands for infinity, the score of a candidate that was never costed. */
  method ScoreCandidate(c: Candidate) returns (score: Option<real>)
    modifies c`objective
    ensures score == if c.load.None? then None else Some(Objective(c.plan, c.load.value))
    ensures c.objective == if c.load.None? then old(c.objective) else Objective(c.plan, c.load.value)
  {
    if c.load.None? {
      return None;
    }
    c.objective := Objective(c.plan, c.load.value);
    return Some(c.objective);
  }

  /** The score of a costed candidate; it does not depend on what has been stored so far. */
  function Score(c: Candidate): real
    requires c.load.Some?
    reads c`load
  {
    Objective(c.plan, c.load.value)
  }

  ghost predicate Beats(c: Candidate, baseline: real)
    reads c`load
  {
    c.load.Some? && Score(c) < baseline - 0.05
  }

  ghost predicate Leads(best: Candidate, c: Candidate)
    requires best.load.Some? && c.load.Some?
    reads best`load, c`load
  {
    NoWorse(Score(best), best.plan, Score(c), c.plan)
  }

  lemma LeadsOrder(a: Candidate, b: Candidate, c: Candidate)
    requires a.load.Some? && b.load.Some? && c.load.Some?
    ensures Leads(a, a) && (Leads(a, b) || Leads(b, a))
    ensures Leads(a, b) && Leads(b, c) ==> Leads(a, c)
  {
    NoWorseOrder(Score(a), a.plan, Score(b), b.plan, Score(c), c.plan);
  }

  /** The first least candidate, by one pass that scores each of them. */
  method LeastCandidate(candidates: seq<Candidate>) returns (best: Candidate)
    requires candidates != []
    requires forall k :: 0 <= k < |candidates| ==> candidates[k].load.Some?
    modifies (set c | c in candidates)`objective
    ensures best in candidates
    ensures forall k :: 0 <= k < |candidates| ==> candidates[k].objective == Score(candidates[k])
    ensures forall k :: 0 <= k < |candidates| ==> Leads(best, candidates[k])
  {
    best := candidates[0];
    var score := ScoreCandidate(best);
    LeadsOrder(best, best, best);
    for i := 1 to |candidates|
      invariant best in candidates[..i]
      invariant forall k :: 0 <= k < i ==> candidates[k].objective == Score(candidates[k])
      invariant forall k :: 0 <= k < i ==> Leads(best, candidates[k])
    {
      var c := candidates[i];
      score := ScoreCandidate(c);
      LeadsOrder(best, c, c);
      LeadsOrder(c, best, best);
      if !NoWorse(Score(best), best.plan, Score(c), c.plan) {
        forall k | 0 <= k < i
          ensures Leads(c, candidates[k])
        {
          LeadsOrder(c, best, candidates[k]);
        }
        best := c;
      }
    }
  }

  /**
   The best costed candidate if it beats the route as it stands by more than a twentieth of an hour
   per night, and null otherwise.
   */
  method ChooseBest(candidates: seq<Candidate>, original: Route, km: Distance) returns (best: Candidate?)
    modifies (set c | c in candidates)`objective
    ensures best != null ==>
              && best in candidates && Beats(best, ComputeTravelLoad(original, km).transitHoursPerNight)
              && best.objective == Score(best)
              && forall c :: c in candidates && c.load.Some? ==> Leads(best, c)
    ensures best == null <==> forall c :: c in candidates ==> !Beats(c, ComputeTravelLoad(original, km).transitHoursPerNight)
  {
    var baseline := ComputeTravelLoad(original, km).transitHoursPerNight;
    var scored: seq<Candidate> := [];
    for i := 0 to |candidates|
      invariant forall c :: c in scored <==> c in candidates[..i] && c.load.Some?
    {
      if candidates[i].load.Some? {
        scored := scored + [candidates[i]];
      }
    }
    if scored == [] {
      return null;
    }
    var least := LeastCandidate(scored);
    forall c | c in scored
      ensures c.load.Some? && Leads(least, c) && c.objective == Score(c)
    {
      var k :| 0 <= k < |scored| && scored[k] == c;
    }
    if least.objective >= baseline - 0.05 {
      return null;
    }
    return least;
  }

  // ----- what a choice is worth -----

  /** `load` is the travel load of some route with the candidate's nights. */
  ghost predicate CostedBy(load: TravelLoad, plan: R.Revision, costed: Route, km: Distance) {
    load == ComputeTravelLoad(costed, km) && TotalNights(costed.stops) == Sum(plan.nights)
  }

  /** Both per-night loads are whole hundredths, so the objective is not rounded further and the margin is a whole hundredth too. */
  lemma ObjectiveIsExact(plan: R.Revision, costed: Route, km: Distance)
    ensures Objective(plan, ComputeTravelLoad(costed, km)) ==
            Round(Burden(costed), 100) + 0.35 * |plan.dropped| as real
  {
    ScaledRound(Burden(costed), 100);
    PenaltyKeepsGrid(Round(Burden(costed), 100), Nearest(Burden(costed) * 100.0), |plan.dropped|);
    RoundExact(Round(Burden(costed), 100) + 0.35 * |plan.dropped| as real, 10000);
  }

  /**
   A costed candidate is preferred to the route as it stands if and only if its load, in whole hundredths
   of an hour a night, and thirty-five for each dropped stop come to more than five less.
   */
  lemma PreferredIff(c: Candidate, costed: Route, original: Route, km: Distance)
    requires c.load == Some(ComputeTravelLoad(costed, km))
    ensures Beats(c, ComputeTravelLoad(original, km).transitHoursPerNight) <==>
            Nearest(Burden(costed) * 100.0) + 35 * |c.plan.dropped| + 5 < Nearest(Burden(original) * 100.0)
  {
    ObjectiveIsExact(c.plan, costed, km);
    ScaledRound(Burden(costed), 100);
    ScaledRound(Burden(original), 100);
  }

  /** One candidate leads another with a lower objective, or else fewer dropped stops, or else a smaller strategy name. */
  lemma LeadsIff(a: Candidate, b: Candidate)
    requires a.load.Some? && b.load.Some?
    ensures Leads(a, b) <==>
            || Score(a) < Score(b)
            || (Score(a) == Score(b) && |a.plan.dropped| < |b.plan.dropped|)
            || (Score(a) == Score(b) && |a.plan.dropped| == |b.plan.dropped| &&
                exists n :: SmallerAt(a.plan.strategy, b.plan.strategy, n))
  {
    AlphabeticalIff(a.plan.strategy, b.plan.strategy);
  }

  lemma PenaltyKeepsGrid(base: real, n: int, dropped: nat)
    requires base * 100.0 == n as real
    ensures OnGrid(base + 0.35 * dropped as real, 10000)
  {
    var t := 100 * n + 3500 * dropped;
    assert t as real == 100.0 * n as real + 3500.0 * dropped as real;
    assert (base + 0.35 * dropped as real) * 10000.0 == t as real;
    assert (t as real).Floor == t;
  }

  lemma MarginInHundredths(costed: Route, original: Route, dropped: nat)
    requires Round(Burden(costed), 100) + 0.35 * dropped as real < Round(Burden(original), 100) - 0.05
    ensures Burden(original) - Burden(costed) >= RequiredSaving(dropped)
  {
    var n, m := Nearest(Burden(costed) * 100.0), Nearest(Burden(original) * 100.0);
    ScaledRound(Burden(costed), 100);
    ScaledRound(Burden(original), 100);
    assert n as real + 35.0 * dropped as real < m as real - 5.0;
    assert n + 35 * dropped + 6 <= m;
    NearestIsClose(Burden(costed) * 100.0);
    NearestIsClose(Burden(original) * 100.0);
  }

  /** Hours a revision must save per night before it is chosen. */
  function RequiredSaving(dropped: nat): real {
    0.05 + R.DROP_PENALTY * dropped as real
  }

  lemma LighterIsFaster(original: Route, costed: Route)
    requires TotalNights(costed.stops) == TotalNights(original.stops)
    requires Burden(costed) < Burden(original)
    ensures TotalMinutes(costed.segments) < TotalMinutes(original.segments)
  {
    if TotalMinutes(original.segments) <= TotalMinutes(costed.segments) {
      var n := AtLeastOne(TotalNights(original.stops)) as real;
      ScaleUp(HoursOf(TotalMinutes(original.segments)), HoursOf(TotalMinutes(costed.segments)), n);
      CrossDivide(HoursOf(TotalMinutes(original.segments)), n, HoursOf(TotalMinutes(costed.segments)), n);
      assert false;
    }
  }

  lemma BetterPlanSavesTime(original: Route, costed: Route, plan: R.Revision, km: Distance)
    requires Sound(original, plan) && TotalNights(costed.stops) == Sum(plan.nights)
    requires Objective(plan, ComputeTravelLoad(costed, km)) < ComputeTravelLoad(original, km).transitHoursPerNight - 0.05
    ensures TotalNights(costed.stops) == TotalNights(original.stops)
    ensures Burden(original) - Burden(costed) >= RequiredSaving(|plan.dropped|)
  {
    var stops :| Names(stops) == plan.stops && NightsOf(stops) == plan.nights && SoundPlan(original, stops, |plan.dropped|, plan.reordered);
    TotalIsSum(stops);
    ObjectiveIsExact(plan, costed, km);
    MarginInHundredths(costed, original, |plan.dropped|);
  }

  /** The costed route has the original's nights, strictly less transit, and a saving that pays for the dropped stops. */
  ghost predicate Improves(original: Route, costed: Route, dropped: nat) {
    && TotalNights(costed.stops) == TotalNights(original.stops)
    && Burden(original) - Burden(costed) >= RequiredSaving(dropped)
    && TotalMinutes(costed.segments) < TotalMinutes(original.segments)
  }

  /**
   A chosen revision keeps every night and really saves travel time: per night at least 0.05 hours
   plus 0.35 hours for each dropped stop, in unrounded hours, although the decision is taken on
   loads rounded to hundredths.
   */
  lemma ChosenRevisionSavesTime(original: Route, costed: Route, c: Candidate, km: Distance)
    requires Sound(original, c.plan)
    requires c.load.Some? && CostedBy(c.load.value, c.plan, costed, km)
    requires Beats(c, ComputeTravelLoad(original, km).transitHoursPerNight)
    ensures Improves(original, costed, |c.plan.dropped|)
  {
    BetterPlanSavesTime(original, costed, c.plan, km);
    LighterIsFaster(original, costed);
  }

  /** End to end: whatever is generated, costed and chosen keeps the traveller's nights and is faster. */
  lemma RevisionsAreImprovements(original: Route, labels: R.Labels, km: Distance, backtracking: bool, k: nat, c: Candidate, costed: Route)
    requires DistinctOrders(original.stops)
    requires var offered := Take(R.Unique(R.AllCandidates(original, labels, km, backtracking)), R.MAX_CANDIDATES);
             k < |offered| && c.plan == offered[k]
    requires c.load.Some? && CostedBy(c.load.value, c.plan, costed, km)
    requires Beats(c, ComputeTravelLoad(original, km).transitHoursPerNight)
    ensures Improves(original, costed, |c.plan.dropped|)
    ensures 2 * |c.plan.dropped| <= |R.OvernightIndices(original.stops)|
  {
    CandidatesAreSound(original, labels, km, backtracking);
    ChosenRevisionSavesTime(original, costed, c, km);
    var stops :| Names(stops) == c.plan.stops && NightsOf(stops) == c.plan.nights &&
                 SoundPlan(original, stops, |c.plan.dropped|, c.plan.reordered);
  }
}
