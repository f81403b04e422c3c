/** Region scores are bounded, reward shorter access, and rank the same whatever the input order. */
module ScoringLaws {
  import opened Wrappers
  import opened Enums
  import opened Sorting
  import opened Subsequences
  import opened Rounding
  import Route
  import opened Scoring

  // ----- every component lies between nought and one -----

  lemma RoundUnit(x: real)
    requires Unit(x)
    ensures Unit(Round(x, 10000))
  {
    RoundMonotone(0.0, x, 10000);
    RoundMonotone(x, 1.0, 10000);
    RoundExact(0.0, 10000);
    RoundExact(1.0, 10000);
  }

  lemma {:induction false} SumOfUnits(xs: seq<real>)
    requires forall i :: 0 <= i < |xs| ==> Unit(xs[i])
    ensures 0.0 <= Sum(xs) <= |xs| as real
  {
    if xs != [] {
      SumOfUnits(xs[1..]);
    }
  }

  lemma DivideWithin(a: real, n: real)
    requires n > 0.0 && 0.0 <= a <= n
    ensures Unit(a / n)
  {
    var q := a / n;
    assert q * n == a;
    Cancel(0.0, q, n);
    Cancel(q, 1.0, n);
  }

  lemma MeanOfUnits(xs: seq<real>)
    requires xs != [] && forall i :: 0 <= i < |xs| ==> Unit(xs[i])
    ensures Unit(Mean(xs))
  {
    SumOfUnits(xs);
    DivideWithin(Sum(xs), |xs| as real);
  }

  lemma StrengthIsUnit(strengths: seq<(string, real)>, interest: string)
    requires forall i :: 0 <= i < |strengths| ==> Unit(strengths[i].1)
    ensures Unit(Strength(strengths, interest))
  {
  }

  lemma BestAreUnits(strengths: seq<(string, real)>, i: nat)
    requires forall k :: 0 <= k < |strengths| ==> Unit(strengths[k].1)
    requires i < |Sort(Descending, Values(strengths))|
    ensures Unit(Sort(Descending, Values(strengths))[i])
  {
    var best := Sort(Descending, Values(strengths));
    SortElements(Descending, Values(strengths), best[i]);
    assert best[i] in Values(strengths);
  }

  lemma InterestMatchIsUnit(region: Profile, interests: seq<string>)
    ensures Unit(InterestMatch(region, interests))
  {
    if interests == [] {
      var best := Sort(Descending, Values(region.interests));
      forall i | 0 <= i < |best|
        ensures Unit(best[i])
      {
        BestAreUnits(region.interests, i);
      }
      var top := Take(best, 3);
      if top != [] {
        MeanOfUnits(top);
      }
      RoundUnit(if top == [] then 0.6 else Mean(top));
    } else {
      var scores := seq(|interests|, i requires 0 <= i < |interests| => Strength(region.interests, interests[i]));
      forall i | 0 <= i < |scores|
        ensures Unit(scores[i])
      {
        StrengthIsUnit(region.interests, interests[i]);
      }
      MeanOfUnits(scores);
      SortMultiset(Descending, scores);
      var worst := Sort(Descending, scores)[|scores| - 1];
      SortElements(Descending, scores, worst);
      RoundUnit(0.7 * Mean(scores) + 0.3 * worst);
    }
  }

  lemma SeasonFitIsUnit(region: Profile, trip: Trip)
    ensures Unit(SeasonFit(region, trip))
  {
    RoundUnit(0.7);
    RoundUnit(0.6);
    if trip.month.Some? && trip.month.value in region.months {
      var m := trip.month.value;
      assert Unit(region.months[m]);
      RoundUnit(region.months[m]);
    }
  }

  lemma NoveltyIsUnit(region: Profile, trip: Trip)
    ensures Unit(Novelty(region, trip))
  {
    var shared := 1.0 - 0.25 * |region.overlaps * trip.visited| as real;
    RoundUnit(if shared > 0.3 then shared else 0.3);
  }

  lemma ScoreIsUnit(x: real)
    ensures Unit(Score(x))
  {
    RoundUnit(Clamp(x));
  }

  lemma TransportIsUnit(region: Profile, trip: Trip)
    ensures Unit(TransportCompatibility(region, trip))
  {
    forall x
      ensures Unit(Score(x))
    {
      ScoreIsUnit(x);
    }
  }

  lemma PracticalityIsUnit(region: Profile, trip: Trip)
    ensures Unit(Practicality(region, trip))
  {
    forall x
      ensures Unit(Score(x))
    {
      ScoreIsUnit(x);
    }
  }

  lemma NightsAndAccessAreUnits(region: Profile, trip: Trip)
    ensures Unit(NightsFit(region, EffectiveNights(trip))) && Unit(AccessScore(region, trip))
  {
    InboundIsGateway(region, trip);
    var nights := EffectiveNights(trip);
    ScoreIsUnit(RawNightsFit(region.minNights, region.idealNights, region.maxNights, nights));
    ScoreIsUnit((0.45 - Route.Share(Inbound(region, trip).hours + Outbound(region, trip).hours, nights)) / 0.35);
  }

  lemma ComponentsAreUnits(region: Profile, trip: Trip, i: nat)
    requires i < 7
    ensures Unit(Components(region, trip)[i])
  {
    NightsAndAccessAreUnits(region, trip);
    TransportIsUnit(region, trip);
    InterestMatchIsUnit(region, trip.interests);
    SeasonFitIsUnit(region, trip);
    NoveltyIsUnit(region, trip);
    PracticalityIsUnit(region, trip);
  }

  lemma WeightedIsBounded(c: seq<real>)
    requires |c| == 7 && forall i :: 0 <= i < 7 ==> Unit(c[i])
    ensures 0.0 <= Weighted(c) <= 100.0
  {
  }

  lemma RoundWithin(low: real, x: real, high: real)
    requires low <= x <= high && OnGrid(low, 100) && OnGrid(high, 100)
    ensures low <= Round(x, 100) <= high
  {
    RoundMonotone(low, x, 100);
    RoundMonotone(x, high, 100);
    RoundExact(low, 100);
    RoundExact(high, 100);
  }

  /** The score is out of a hundred, and a broken constraint holds it to 38 and to "not recommended". */
  lemma ScoreIsBounded(region: Profile, trip: Trip)
    ensures var fit := ScoreRegion(region, trip);
            && 0.0 <= fit.score <= 100.0
            && (fit.failures != [] ==> fit.score <= 38.0 && fit.verdict == NotRecommended)
            && (fit.failures == [] ==> fit.verdict == LabelFor(Weighted(fit.components)))
  {
    RawIsBounded(region, trip);
    CapHolds(Weighted(Components(region, trip)), HardFailures(region, trip) != []);
  }

  lemma CapHolds(raw: real, failed: bool)
    requires 0.0 <= raw <= 100.0
    ensures 0.0 <= Round(Capped(raw, failed), 100) <= if failed then 38.0 else 100.0
  {
    RoundWithin(0.0, Capped(raw, failed), if failed then 38.0 else 100.0);
  }

  lemma RawIsBounded(region: Profile, trip: Trip)
    ensures 0.0 <= Weighted(Components(region, trip)) <= 100.0
  {
    forall i | 0 <= i < 7
      ensures Unit(Components(region, trip)[i])
    {
      ComponentsAreUnits(region, trip, i);
    }
    WeightedIsBounded(Components(region, trip));
  }

  // ----- shorter access -----

  /** The same region with every gateway at most as far away. */
  ghost predicate NoFarther(a: Profile, b: Profile) {
    && a == b.(gateways := a.gateways)
    && |a.gateways| == |b.gateways|
    && forall i :: 0 <= i < |a.gateways| ==> a.gateways[i].name == b.gateways[i].name && a.gateways[i].hours <= b.gateways[i].hours
  }

  lemma {:induction false} AccessNoFarther(a: seq<Gateway>, b: seq<Gateway>, city: Option<City>)
    requires |a| == |b|
    requires forall i :: 0 <= i < |a| ==> a[i].name == b[i].name && a[i].hours <= b[i].hours
    ensures AccessFrom(a, city).Some? <==> AccessFrom(b, city).Some?
    ensures AccessFrom(a, city).Some? ==> AccessFrom(a, city).value.hours <= AccessFrom(b, city).value.hours
  {
    if a != [] {
      AccessNoFarther(a[1..], b[1..], city);
    }
  }

  lemma BestNoFarther(a: seq<Gateway>, b: seq<Gateway>)
    requires |a| == |b| && a != []
    requires forall i :: 0 <= i < |a| ==> a[i].hours <= b[i].hours
    ensures BestGateway(a).hours <= BestGateway(b).hours
  {
    var i :| 0 <= i < |b| && b[i] == BestGateway(b);
    assert BestGateway(a).hours <= a[i].hours;
  }

  lemma HoursNoFarther(a: Profile, b: Profile, trip: Trip)
    requires NoFarther(a, b)
    ensures 0.0 <= Inbound(a, trip).hours <= Inbound(b, trip).hours
    ensures 0.0 <= Outbound(a, trip).hours <= Outbound(b, trip).hours
  {
    InboundIsGateway(a, trip);
    AccessNoFarther(a.gateways, b.gateways, trip.arrival);
    AccessNoFarther(a.gateways, b.gateways, trip.departure);
    BestNoFarther(a.gateways, b.gateways);
  }

  lemma ScoreMonotone(x: real, y: real)
    requires x <= y
    ensures Score(x) <= Score(y)
  {
    RoundMonotone(Clamp(x), Clamp(y), 10000);
  }

  lemma EfficiencyFalls(x: real, y: real, nights: nat)
    requires 0.0 <= x <= y
    ensures AccessEfficiency(x, nights) >= AccessEfficiency(y, nights)
  {
    Route.ShareMonotone(x, nights, y, nights);
    ScoreMonotone((0.45 - Route.Share(y, nights)) / 0.35, (0.45 - Route.Share(x, nights)) / 0.35);
  }

  lemma OthersSame(a: Profile, b: Profile, trip: Trip, nights: nat)
    requires a == b.(gateways := a.gateways)
    ensures NightsFit(a, nights) == NightsFit(b, nights)
    ensures InterestMatch(a, trip.interests) == InterestMatch(b, trip.interests)
    ensures SeasonFit(a, trip) == SeasonFit(b, trip) && Novelty(a, trip) == Novelty(b, trip)
  {
  }

  lemma TransportSame(a: Profile, b: Profile, trip: Trip)
    requires a == b.(gateways := a.gateways)
    ensures TransportCompatibility(a, trip) == TransportCompatibility(b, trip)
  {
  }

  lemma PracticalitySame(a: Profile, b: Profile, trip: Trip)
    requires a == b.(gateways := a.gateways)
    ensures Practicality(a, trip) == Practicality(b, trip)
  {
  }

  /** Only the access component can differ. */
  lemma ComponentsNoFarther(a: Profile, b: Profile, trip: Trip)
    requires NoFarther(a, b)
    ensures var c, d := Components(a, trip), Components(b, trip);
            c[0] == d[0] && c[1] >= d[1] && c[2] == d[2] && c[3] == d[3] && c[4] == d[4] && c[5] == d[5] && c[6] == d[6]
  {
    OthersSame(a, b, trip, EffectiveNights(trip));
    TransportSame(a, b, trip);
    PracticalitySame(a, b, trip);
    AccessNoWorse(a, b, trip);
  }

  lemma AccessNoWorse(a: Profile, b: Profile, trip: Trip)
    requires NoFarther(a, b)
    ensures AccessScore(a, trip) >= AccessScore(b, trip)
  {
    HoursNoFarther(a, b, trip);
    EfficiencyFalls(Inbound(a, trip).hours + Outbound(a, trip).hours, Inbound(b, trip).hours + Outbound(b, trip).hours,
                    EffectiveNights(trip));
  }

  /** Nothing new fails. */
  lemma FailuresNoFarther(a: Profile, b: Profile, trip: Trip)
    requires NoFarther(a, b)
    ensures forall f :: f in HardFailures(a, trip) ==> f in HardFailures(b, trip)
    ensures HardFailures(a, trip) != [] ==> HardFailures(b, trip) != []
  {
    HoursNoFarther(a, b, trip);
    Route.ShareMonotone(2.0 * Inbound(a, trip).hours, EffectiveNights(trip), 2.0 * Inbound(b, trip).hours, EffectiveNights(trip));
  }

  function Standing(verdict: Label): nat {
    match verdict
    case Strong => 3
    case Good => 2
    case Marginal => 1
    case NotRecommended => 0
  }

  /** Shorter gateway times never lower a score or a label, and never eliminate a region. */
  lemma ShorterAccessHelps(a: Profile, b: Profile, trip: Trip)
    requires NoFarther(a, b)
    ensures var x, y := ScoreRegion(a, trip), ScoreRegion(b, trip);
            && x.score >= y.score
            && Standing(x.verdict) >= Standing(y.verdict)
            && (y.failures == [] ==> x.failures == [])
  {
    ComponentsNoFarther(a, b, trip);
    FailuresNoFarther(a, b, trip);
    var c, d := Weighted(Components(a, trip)), Weighted(Components(b, trip));
    CapGrows(d, HardFailures(b, trip) != [], c, HardFailures(a, trip) != []);
  }

  lemma CapGrows(d: real, failedD: bool, c: real, failedC: bool)
    requires d <= c && (failedC ==> failedD)
    ensures Round(Capped(d, failedD), 100) <= Round(Capped(c, failedC), 100)
  {
    RoundMonotone(Capped(d, failedD), Capped(c, failedC), 100);
  }

  // ----- ranking -----

  lemma AheadIsTotal()
    ensures TotalOrder(Ahead)
  {
    forall a, b: Fit
      ensures Ahead(a, b) || Ahead(b, a)
    {
      AlphabeticalOrder(a.code, b.code, b.code);
    }
    forall a, b, c: Fit | Ahead(a, b) && Ahead(b, c)
      ensures Ahead(a, c)
    {
      AlphabeticalOrder(a.code, b.code, c.code);
    }
  }

  ghost predicate DistinctCodes(regions: seq<Profile>) {
    forall i, j :: 0 <= i < |regions| && 0 <= j < |regions| && regions[i].code == regions[j].code ==> regions[i] == regions[j]
  }

  lemma ScoredDoNotTie(regions: seq<Profile>, trip: Trip)
    requires DistinctCodes(regions)
    ensures NoTies(Ahead, Scored(regions, trip))
  {
    var scored := Scored(regions, trip);
    forall x, y | x in scored && y in scored && Ahead(x, y) && Ahead(y, x)
      ensures x == y
    {
      var i, j := IndexIn(scored, x), IndexIn(scored, y);
      SameCodeSameFit(regions, trip, i, j);
    }
  }

  lemma SameCodeSameFit(regions: seq<Profile>, trip: Trip, i: nat, j: nat)
    requires i < |regions| && j < |regions| && DistinctCodes(regions)
    requires Ahead(Scored(regions, trip)[i], Scored(regions, trip)[j]) && Ahead(Scored(regions, trip)[j], Scored(regions, trip)[i])
    ensures Scored(regions, trip)[i] == Scored(regions, trip)[j]
  {
    KeepsCode(regions[i], trip);
    KeepsCode(regions[j], trip);
    AlphabeticalTie(regions[i].code, regions[j].code);
  }

  lemma KeepsCode(region: Profile, trip: Trip)
    ensures Scorer(trip)(region).code == region.code
  {
  }

  /** The ranking is sorted and does not depend on the order the regions came in. */
  lemma RankIgnoresInputOrder(a: seq<Profile>, b: seq<Profile>, trip: Trip)
    requires multiset(a) == multiset(b) && DistinctCodes(a)
    ensures RankRegions(a, trip) == RankRegions(b, trip)
    ensures Sorted(Ahead, RankRegions(a, trip)) && multiset(RankRegions(a, trip)) == multiset(Scored(a, trip))
  {
    AheadIsTotal();
    MapMultiset(Scorer(trip), a, b);
    ScoredDoNotTie(a, trip);
    SortIgnoresInputOrder(Ahead, Scored(a, trip), Scored(b, trip));
    SortSorted(Ahead, Scored(a, trip));
    SortMultiset(Ahead, Scored(a, trip));
  }

  /** A survivor with more than 38 points comes before every eliminated region. */
  lemma SurvivorsAboveTheCapComeFirst(survivor: Profile, eliminated: Profile, trip: Trip)
    requires ScoreRegion(survivor, trip).score > 38.0 && HardFailures(eliminated, trip) != []
    ensures !Ahead(ScoreRegion(eliminated, trip), ScoreRegion(survivor, trip))
  {
    ScoreIsBounded(eliminated, trip);
  }

  // ----- elimination is a cap, not a rank -----

  /** A region at the gateway itself, with perfect transport, that is unsuitable in every other way. */
  function Unsuitable(minNights: nat, code: string): Profile {
    Region(code, {}, [Gateway("", 0.0)], minNights, minNights, minNights, 1.0, false, true, [], map[], 0.0, 1.0, 0.0, {})
  }

  lemma UnsuitableAccess(minNights: nat, trip: Trip, code: string)
    ensures AccessScore(Unsuitable(minNights, code), trip) == 1.0
  {
    var region := Unsuitable(minNights, code);
    InboundIsGateway(region, trip);
    AccessIsGateway(region.gateways, trip.arrival);
    AccessIsGateway(region.gateways, trip.departure);
    assert Route.Share(0.0, EffectiveNights(trip)) == 0.0;
    RoundExact(1.0, 10000);
  }

  lemma UnsuitableTransport(minNights: nat, trip: Trip, code: string)
    ensures TransportCompatibility(Unsuitable(minNights, code), trip) == 1.0
  {
    RoundExact(1.0, 10000);
  }

  /** Access and transport alone reach the cap. */
  lemma UnsuitableReachesTheCap(minNights: nat, trip: Trip, code: string)
    requires HardFailures(Unsuitable(minNights, code), trip) != []
    ensures ScoreRegion(Unsuitable(minNights, code), trip).score == 38.0
  {
    var region := Unsuitable(minNights, code);
    UnsuitableAccess(minNights, trip, code);
    UnsuitableTransport(minNights, trip, code);
    forall i | 0 <= i < 7
      ensures Unit(Components(region, trip)[i])
    {
      ComponentsAreUnits(region, trip, i);
    }
    TwoComponentsReachTheCap(Components(region, trip));
  }

  lemma TwoComponentsReachTheCap(c: seq<real>)
    requires |c| == 7 && (forall i :: 0 <= i < 7 ==> Unit(c[i])) && c[1] == 1.0 && c[2] == 1.0
    ensures Round(Capped(Weighted(c), true), 100) == 38.0
  {
    RoundExact(38.0, 100);
  }

  /** Nothing eliminated can be ranked before this region: its score is above the cap, or is the cap and no code sorts before its own. */
  predicate OutOfReach(region: Profile, trip: Trip) {
    var fit := ScoreRegion(region, trip);
    fit.score > 38.0 || (fit.score == 38.0 && fit.code == "")
  }

  lemma OutOfReachIsSafe(region: Profile, eliminated: Profile, trip: Trip)
    requires OutOfReach(region, trip) && HardFailures(eliminated, trip) != [] && eliminated.code != region.code
    ensures !Ahead(ScoreRegion(eliminated, trip), ScoreRegion(region, trip))
  {
    ScoreIsBounded(eliminated, trip);
  }

  /** Any other region is outranked by an unsuitable one of a suitable code. */
  lemma EliminatedMayOutrank(region: Profile, trip: Trip, minNights: nat) returns (code: string)
    requires !OutOfReach(region, trip) && forall c :: HardFailures(Unsuitable(minNights, c), trip) != []
    ensures code != region.code
    ensures Ahead(ScoreRegion(Unsuitable(minNights, code), trip), ScoreRegion(region, trip))
  {
    code := if region.code == "" then "x" else "";
    UnsuitableReachesTheCap(minNights, trip, code);
  }

  /** No eliminated region of another code is ever ranked before `region` exactly when it is out of reach. */
  lemma NoEliminatedAheadIff(region: Profile, trip: Trip)
    ensures (forall eliminated: Profile | HardFailures(eliminated, trip) != [] && eliminated.code != region.code ::
               !Ahead(ScoreRegion(eliminated, trip), ScoreRegion(region, trip)))
            <==> OutOfReach(region, trip)
  {
    if OutOfReach(region, trip) {
      forall eliminated: Profile | HardFailures(eliminated, trip) != [] && eliminated.code != region.code
        ensures !Ahead(ScoreRegion(eliminated, trip), ScoreRegion(region, trip))
      {
        OutOfReachIsSafe(region, eliminated, trip);
      }
    } else {
      var nights := EffectiveNights(trip) + 1;
      forall c
        ensures HardFailures(Unsuitable(nights, c), trip) != []
      {
        assert HardFailures(Unsuitable(nights, c), trip)[0] == MinNights;
      }
      var code := EliminatedMayOutrank(region, trip, nights);
    }
  }

  // ----- the same within the limits of the profile's fields -----

  /** The upper limits a published profile obeys; its lower ones are in `WellFormed`. */
  ghost predicate WithinLimits(region: Profile) {
    && 1 <= region.minNights <= 14 && 1 <= region.idealNights <= 21 && 1 <= region.maxNights <= 30
    && forall i :: 0 <= i < |region.gateways| ==> region.gateways[i].hours <= 24.0
  }

  /** Some published region can fail a hard constraint of this trip. */
  predicate CanEliminate(trip: Trip) {
    EffectiveNights(trip) <= 13 || trip.driving == Some(NoCar) || trip.stepFreeRequired
  }

  /** From fourteen nights on even a day's transfer each way is acceptable at any pace. */
  lemma LongStaysAbsorbTransfers(hours: real, nights: nat, pace: Option<Pace>)
    requires 0.0 <= hours <= 24.0 && nights >= 14
    ensures TransitAcceptable(hours, nights, pace)
  {
    var usable := Route.AtLeastOne(nights) as real * 10.0;
    assert usable >= 140.0;
    Route.ShareMonotone(2.0 * hours, nights, 48.0, nights);
    CrossDivide(48.0, 48.0 + usable, 28.0, 100.0);
  }

  lemma NothingToEliminate(region: Profile, trip: Trip)
    requires WithinLimits(region) && !CanEliminate(trip)
    ensures HardFailures(region, trip) == []
  {
    InboundIsGateway(region, trip);
    AccessIsGateway(region.gateways, trip.arrival);
    LongStaysAbsorbTransfers(Inbound(region, trip).hours, EffectiveNights(trip), trip.pace);
  }

  /** The least minimum stay that rules the trip out, as far as the field allows one. */
  function TooLong(trip: Trip): nat {
    if EffectiveNights(trip) <= 13 then EffectiveNights(trip) + 1 else 1
  }

  /** A trip on which published regions can be eliminated is one an unsuitable region is eliminated on. */
  lemma EliminationIffPossible(trip: Trip)
    ensures (exists region: Profile :: WithinLimits(region) && HardFailures(region, trip) != []) <==> CanEliminate(trip)
    ensures CanEliminate(trip) ==>
              forall c :: WithinLimits(Unsuitable(TooLong(trip), c)) && HardFailures(Unsuitable(TooLong(trip), c), trip) != []
  {
    if CanEliminate(trip) {
      forall c
        ensures WithinLimits(Unsuitable(TooLong(trip), c)) && HardFailures(Unsuitable(TooLong(trip), c), trip) != []
      {
        UnsuitableFails(trip, c);
      }
      assert WithinLimits(Unsuitable(TooLong(trip), ""));
    } else {
      forall region: Profile | WithinLimits(region)
        ensures HardFailures(region, trip) == []
      {
        NothingToEliminate(region, trip);
      }
    }
  }

  lemma UnsuitableFails(trip: Trip, code: string)
    requires CanEliminate(trip)
    ensures HardFailures(Unsuitable(TooLong(trip), code), trip) != []
  {
    var failures := HardFailures(Unsuitable(TooLong(trip), code), trip);
    assert EffectiveNights(trip) <= 13 ==> MinNights in failures;
    assert trip.driving == Some(NoCar) ==> CarFreeRequired in failures;
    assert trip.stepFreeRequired ==> StepFree in failures;
  }

  /** Among published regions: nothing eliminated is ever ranked before `region` if and only if it is out of reach or nothing can be eliminated. */
  lemma NoPublishedEliminatedAheadIff(region: Profile, trip: Trip)
    ensures (forall eliminated: Profile |
               WithinLimits(eliminated) && HardFailures(eliminated, trip) != [] && eliminated.code != region.code ::
               !Ahead(ScoreRegion(eliminated, trip), ScoreRegion(region, trip)))
            <==> OutOfReach(region, trip) || !CanEliminate(trip)
  {
    EliminationIffPossible(trip);
    if OutOfReach(region, trip) {
      NoEliminatedAheadIff(region, trip);
    } else if CanEliminate(trip) {
      var code := EliminatedMayOutrank(region, trip, TooLong(trip));
      assert WithinLimits(Unsuitable(TooLong(trip), code));
    }
  }

  // ----- how many nights -----

  lemma RatioBounds(a: int, b: int)
    requires 0 <= a && a <= b
    ensures Unit(Ratio(a, b))
    ensures a == b && b > 0 ==> Ratio(a, b) == 1.0
    ensures a < b ==> Ratio(a, b) < 1.0
  {
    var n := (if b > 1 then b else 1) as real;
    DivideWithin(a as real, n);
    if a == b && b > 0 {
      assert n / n == 1.0;
    }
    if a < b {
      var q := a as real / n;
      assert q * n == a as real;
    }
  }

  lemma RatioGrows(a: int, c: int, b: int)
    requires a <= c
    ensures Ratio(a, b) <= Ratio(c, b)
  {
    var n := (if b > 1 then b else 1) as real;
    var x, y := a as real / n, c as real / n;
    assert x * n == a as real && y * n == c as real;
    Cancel(x, y, n);
  }

  /** The ideal stay gets full marks exactly when it is longer than the minimum one. */
  lemma IdealNightsGetFullMarks(region: Profile)
    ensures NightsFit(region, region.idealNights) == 1.0 <==> region.minNights < region.idealNights
  {
    var raw := RawNightsFit(region.minNights, region.idealNights, region.maxNights, region.idealNights);
    RoundExact(1.0, 10000);
    if region.minNights < region.idealNights {
      RatioBounds(region.idealNights - region.minNights, region.idealNights - region.minNights);
    } else {
      if region.idealNights < region.minNights {
        RatioBounds(region.idealNights, region.minNights);
      } else {
        RatioBounds(0, 0);
      }
      assert raw <= 0.7 by {
        if region.idealNights == region.minNights {
          assert Ratio(0, 0) == 0.0;
        }
      }
      RoundMonotone(Clamp(raw), 0.7, 10000);
      RoundExact(0.7, 10000);
    }
  }

  lemma RawRises(minNights: nat, idealNights: nat, maxNights: nat, n: nat, m: nat)
    requires n <= m <= idealNights
    ensures RawNightsFit(minNights, idealNights, maxNights, n) <= RawNightsFit(minNights, idealNights, maxNights, m)
  {
    if n < minNights {
      RatioBounds(n, minNights);
      if m < minNights {
        RatioGrows(n, m, minNights);
      } else {
        RatioBounds(m - minNights, idealNights - minNights);
      }
    } else {
      RatioGrows(n - minNights, m - minNights, idealNights - minNights);
    }
  }

  /** The marks fall away after the ideal stay: it is longer than the minimum one, or no longer stay is useful. */
  predicate HasPeak(region: Profile) {
    region.minNights < region.idealNights ||
    (region.minNights == region.idealNights && region.maxNights <= region.idealNights)
  }

  lemma RawFalls(minNights: nat, idealNights: nat, maxNights: nat, n: nat, m: nat)
    requires minNights < idealNights || (minNights == idealNights && maxNights <= idealNights)
    requires idealNights <= n <= m
    ensures RawNightsFit(minNights, idealNights, maxNights, n) >= RawNightsFit(minNights, idealNights, maxNights, m)
  {
    RatioBounds(idealNights - minNights, idealNights - minNights);
    if idealNights < m <= maxNights {
      RatioBounds(m - idealNights, maxNights - idealNights);
      if idealNights < n {
        RatioGrows(n - idealNights, m - idealNights, maxNights - idealNights);
      }
    } else if idealNights < n <= maxNights {
      RatioBounds(n - idealNights, maxNights - idealNights);
    }
  }

  /** Nearer to the ideal stay, from either side, is never worse. */
  ghost predicate Unimodal(region: Profile) {
    forall n: nat, m: nat | n <= m ::
      && (m <= region.idealNights ==> NightsFit(region, n) <= NightsFit(region, m))
      && (region.idealNights <= n ==> NightsFit(region, n) >= NightsFit(region, m))
  }

  /** A minimum stay that is ideal but not the longest useful one: a night more earns more. */
  lemma OneNightMorePays(idealNights: nat, maxNights: nat)
    requires idealNights < maxNights
    ensures RawNightsFit(idealNights, idealNights, maxNights, idealNights) <= 0.7
    ensures RawNightsFit(idealNights, idealNights, maxNights, idealNights + 1) >= 0.75
  {
    assert Ratio(0, 0) == 0.0;
    RatioBounds(1, maxNights - idealNights);
  }

  /** An ideal stay below the minimum one: the minimum earns more. */
  lemma MinimumPays(minNights: nat, idealNights: nat, maxNights: nat)
    requires idealNights < minNights
    ensures RawNightsFit(minNights, idealNights, maxNights, idealNights) <= 0.5
    ensures RawNightsFit(minNights, idealNights, maxNights, minNights) >= 0.6
  {
    RatioBounds(idealNights, minNights);
    if minNights <= maxNights {
      RatioBounds(minNights - idealNights, maxNights - idealNights);
    }
  }

  /** Without a peak some longer stay earns more than the ideal one. */
  lemma BeyondTheIdeal(region: Profile) returns (m: nat)
    requires !HasPeak(region)
    ensures region.idealNights <= m && NightsFit(region, region.idealNights) < NightsFit(region, m)
  {
    var lo, ideal, hi := region.minNights, region.idealNights, region.maxNights;
    if lo == ideal {
      m := ideal + 1;
      OneNightMorePays(ideal, hi);
      MarksApart(RawNightsFit(lo, ideal, hi, ideal), 0.7, 0.75, RawNightsFit(lo, ideal, hi, m));
    } else {
      m := lo;
      MinimumPays(lo, ideal, hi);
      MarksApart(RawNightsFit(lo, ideal, hi, ideal), 0.5, 0.6, RawNightsFit(lo, ideal, hi, m));
    }
  }

  /** Rounding to four places keeps apart what two multiples of a hundredth keep apart. */
  lemma MarksApart(x: real, low: real, high: real, y: real)
    requires x <= low < high <= y && Unit(low) && Unit(high) && OnGrid(low, 10000) && OnGrid(high, 10000)
    ensures Score(x) < Score(y)
  {
    RoundMonotone(Clamp(x), low, 10000);
    RoundMonotone(high, Clamp(y), 10000);
    RoundExact(low, 10000);
    RoundExact(high, 10000);
  }

  lemma PeakIsUnimodal(region: Profile, n: nat, m: nat)
    requires HasPeak(region) && n <= m
    ensures m <= region.idealNights ==> NightsFit(region, n) <= NightsFit(region, m)
    ensures region.idealNights <= n ==> NightsFit(region, n) >= NightsFit(region, m)
  {
    var rawN := RawNightsFit(region.minNights, region.idealNights, region.maxNights, n);
    var rawM := RawNightsFit(region.minNights, region.idealNights, region.maxNights, m);
    if m <= region.idealNights {
      RawRises(region.minNights, region.idealNights, region.maxNights, n, m);
      ScoreMonotone(rawN, rawM);
    }
    if region.idealNights <= n {
      RawFalls(region.minNights, region.idealNights, region.maxNights, n, m);
      ScoreMonotone(rawM, rawN);
    }
  }

  /** Nights fit rises up to the ideal stay and falls after it exactly when the ideal stay is a peak. */
  lemma NightsFitIsUnimodal(region: Profile)
    ensures Unimodal(region) <==> HasPeak(region)
  {
    if HasPeak(region) {
      forall n: nat, m: nat | n <= m
        ensures m <= region.idealNights ==> NightsFit(region, n) <= NightsFit(region, m)
        ensures region.idealNights <= n ==> NightsFit(region, n) >= NightsFit(region, m)
      {
        PeakIsUnimodal(region, n, m);
      }
    } else {
      var m := BeyondTheIdeal(region);
    }
  }
}
