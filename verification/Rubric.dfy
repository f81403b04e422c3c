/**
 What each part of the region rubric comes to: when a constraint fails, what a component is worth at its
 ends and where it turns, and how the parts add up (`backend/src/jst_api/domain/scoring.py`).
 */
module Rubric {
  import opened Wrappers
  import opened Enums
  import opened Sorting
  import opened Subsequences
  import opened Rounding
  import Route
  import opened Scoring
  import opened ScoringLaws

  // ----- nights and gateways -----

  /** Without regional nights a third of the trip, rounded down, but two to seven; three when nothing is known. */
  lemma NightsAllowed(total: nat)
    ensures 2 <= Allowance(Some(total)) <= 7
    ensures total == 0 ==> Allowance(Some(total)) == 3 == Allowance(None)
    ensures 6 <= total < 24 ==> 3 * Allowance(Some(total)) <= total < 3 * Allowance(Some(total)) + 3
    ensures 0 < total < 6 ==> Allowance(Some(total)) == 2
    ensures total >= 24 ==> Allowance(Some(total)) == 7
  {
  }

  /** A stated number of regional nights decides, unless it is nought. */
  lemma StatedNightsDecide(trip: Trip, n: nat)
    requires trip.regionalNights == Some(n)
    ensures n > 0 ==> EffectiveNights(trip) == n
    ensures n == 0 ==> EffectiveNights(trip) == EffectiveNights(trip.(regionalNights := None))
  {
  }

  /** `part` occurs in `text`. */
  ghost predicate Within(part: string, text: string) {
    exists before, after :: text == before + part + after
  }

  lemma WithinTail(part: string, text: string)
    requires text != "" && Within(part, text[1..])
    ensures Within(part, text)
  {
    var before, after :| text[1..] == before + part + after;
    assert text == ([text[0]] + before) + part + after;
  }

  lemma AfterHead(text: string, before: string, part: string, after: string)
    requires text == before + part + after
    ensures part <= text || (before != "" && text[1..] == before[1..] + part + after)
  {
    if before == "" {
      assert text == part + after;
    }
  }

  lemma TailWithin(part: string, text: string)
    requires text != "" && Within(part, text) && !(part <= text)
    ensures Within(part, text[1..])
  {
    var before, after :| text == before + part + after;
    AfterHead(text, before, part, after);
  }

  lemma {:induction false} ContainsIff(text: string, part: string)
    ensures Contains(text, part) <==> Within(part, text)
  {
    if part <= text {
      assert text == "" + part + text[|part|..];
    } else if text != "" {
      ContainsIff(text[1..], part);
      if Within(part, text) {
        TailWithin(part, text);
      }
      if Within(part, text[1..]) {
        WithinTail(part, text);
      }
    }
  }

  /** The city is served by the gateway: one name occurs in the other. */
  ghost predicate Serves(gateway: Gateway, city: City) {
    Within(city.folded, gateway.name) || Within(gateway.name, city.folded)
  }

  /** The first gateway that serves the city is taken; none is without a city, or when none serves it. */
  lemma {:induction false} FirstServing(gateways: seq<Gateway>, city: Option<City>)
    ensures AccessFrom(gateways, city) == None <==>
            city == None || city.value.text == "" || forall i :: 0 <= i < |gateways| ==> !Serves(gateways[i], city.value)
    ensures AccessFrom(gateways, city).Some? ==>
            exists i :: 0 <= i < |gateways| && AccessFrom(gateways, city) == Some(gateways[i]) && Serves(gateways[i], city.value) &&
                        forall j :: 0 <= j < i ==> !Serves(gateways[j], city.value)
  {
    if city.Some? && city.value.text != "" && gateways != [] {
      ContainsIff(gateways[0].name, city.value.folded);
      ContainsIff(city.value.folded, gateways[0].name);
      FirstServing(gateways[1..], city);
      if !Serves(gateways[0], city.value) {
        ServingLater(gateways, city.value);
      }
    }
  }

  ghost predicate FirstAt(gateways: seq<Gateway>, city: City, i: nat) {
    i < |gateways| && Serves(gateways[i], city) && forall j :: 0 <= j < i ==> !Serves(gateways[j], city)
  }

  lemma ServingLater(gateways: seq<Gateway>, city: City)
    requires gateways != [] && !Serves(gateways[0], city)
    ensures forall i: nat :: FirstAt(gateways[1..], city, i) ==> FirstAt(gateways, city, i + 1) && gateways[i + 1] == gateways[1..][i]
    ensures (forall i :: 0 <= i < |gateways| ==> !Serves(gateways[i], city)) <==>
            (forall i :: 0 <= i < |gateways[1..]| ==> !Serves(gateways[1..][i], city))
  {
    forall i: nat | FirstAt(gateways[1..], city, i)
      ensures FirstAt(gateways, city, i + 1)
    {
      forall j | 0 <= j < i + 1
        ensures !Serves(gateways[j], city)
      {
        if j > 0 {
          assert gateways[j] == gateways[1..][j - 1];
        }
      }
    }
    if forall i :: 0 <= i < |gateways[1..]| ==> !Serves(gateways[1..][i], city) {
      forall i | 0 <= i < |gateways|
        ensures !Serves(gateways[i], city)
      {
        if i > 0 {
          assert gateways[i] == gateways[1..][i - 1];
        }
      }
    }
  }

  /** In through the gateway that serves the arrival city, out through the one that serves the departure city. */
  lemma GatewaysUsed(region: Profile, trip: Trip)
    ensures AccessFrom(region.gateways, trip.arrival).Some? ==> Some(Inbound(region, trip)) == AccessFrom(region.gateways, trip.arrival)
    ensures AccessFrom(region.gateways, trip.arrival) == None ==>
              Inbound(region, trip) in region.gateways &&
              forall i :: 0 <= i < |region.gateways| ==> Inbound(region, trip).hours <= region.gateways[i].hours
    ensures AccessFrom(region.gateways, trip.departure).Some? ==> Some(Outbound(region, trip)) == AccessFrom(region.gateways, trip.departure)
    ensures AccessFrom(region.gateways, trip.departure) == None ==> Outbound(region, trip) == Inbound(region, trip)
  {
  }

  // ----- hard constraints -----

  /** How many eighteenths, thirteenths or ninths: the pace decides what a night's stay is worth in hours of access. */
  function PaceFactor(pace: Option<Pace>): real {
    match pace
    case Some(Relaxed) => 18.0
    case Some(Fast) => 9.0
    case _ => 13.0
  }

  /** The transfer is too long when eighteen, thirteen or nine times its hours one way exceed 35 a night. */
  lemma TransitFailsIff(hours: real, nights: nat, pace: Option<Pace>)
    requires hours >= 0.0
    ensures !TransitAcceptable(hours, nights, pace) <==> PaceFactor(pace) * hours > 35.0 * Route.AtLeastOne(nights) as real
  {
    var usable := Route.AtLeastOne(nights) as real * 10.0;
    QuotientAtLeast(usable, 2.0 * hours + usable, 1.0 - MAX_TRANSIT_SHARE * Tolerance(pace));
    PartAndRest(2.0 * hours, usable, 2.0 * hours + usable);
  }

  lemma PartAndRest(part: real, rest: real, whole: real)
    requires part >= 0.0 && rest > 0.0 && whole == part + rest
    ensures part / whole + rest / whole == 1.0
  {
    Undivided(part, whole);
    Undivided(rest, whole);
    SharesAddUp(part / whole, rest / whole, part, rest, whole);
  }

  lemma SharesAddUp(a: real, b: real, part: real, rest: real, whole: real)
    requires whole > 0.0 && part + rest == whole
    requires a * whole == part
    requires b * whole == rest
    ensures a + b == 1.0
  {
    assert (a + b - 1.0) * whole == 0.0;
  }

  /** Exactly these constraints fail, each reported once. */
  lemma FailuresIff(region: Profile, trip: Trip)
    ensures var failures, nights := HardFailures(region, trip), EffectiveNights(trip);
            && (MinNights in failures <==> nights < region.minNights)
            && (CarFreeRequired in failures <==> trip.driving == Some(NoCar) && !region.carFreePossible)
            && (TransitShare in failures <==>
                PaceFactor(trip.pace) * Inbound(region, trip).hours > 35.0 * Route.AtLeastOne(nights) as real)
            && (StepFree in failures <==> trip.stepFreeRequired && region.stepFree < 0.5)
            && Distinct(failures)
  {
    InboundIsGateway(region, trip);
    TransitFailsIff(Inbound(region, trip).hours, EffectiveNights(trip), trip.pace);
  }

  // ----- components -----

  lemma ScoreAtEnds(x: real)
    ensures x >= 1.0 ==> Score(x) == 1.0
    ensures x <= 0.0 ==> Score(x) == 0.0
  {
    RoundExact(1.0, 10000);
    RoundExact(0.0, 10000);
  }

  /** Access is worth everything up to an hour for nine tenths of a night, and nothing from ninety elevenths of an hour a night on. */
  lemma AccessAtEnds(hours: real, nights: nat)
    requires hours >= 0.0
    ensures 9.0 * hours <= 10.0 * Route.AtLeastOne(nights) as real ==> AccessEfficiency(hours, nights) == 1.0
    ensures 11.0 * hours >= 90.0 * Route.AtLeastOne(nights) as real ==> AccessEfficiency(hours, nights) == 0.0
  {
    var usable := Route.AtLeastOne(nights) as real * 10.0;
    QuotientAtLeast(usable, hours + usable, 0.9);
    QuotientAtLeast(hours, hours + usable, 0.45);
    PartAndRest(hours, usable, hours + usable);
    ScoreAtEnds((0.45 - Route.Share(hours, nights)) / 0.35);
  }

  /** Halfway between the two ends of the share, at 27.5 per cent, access is worth a half. */
  lemma AccessHalfway(hours: real, nights: nat)
    requires hours >= 0.0 && Route.Share(hours, nights) == 0.275
    ensures AccessEfficiency(hours, nights) == 0.5
  {
    RoundExact(0.5, 10000);
  }

  /** The worth of public transport to a traveller who will drive: never below three quarters, or 0.85 where a car is recommended. */
  function Floor(carRecommended: bool): real {
    if carRecommended then 0.85 else 0.75
  }

  /** Transport by driving preference, with ordinary luggage. */
  lemma TransportByPreference(pts: real, car: bool, luggage: real, trip: Trip)
    requires Unit(pts) && !trip.largeLuggage
    ensures var value := RawTransport(pts, car, luggage, trip);
            && (trip.driving == Some(NoCar) ==> value == pts)
            && (trip.driving == Some(Willing) || trip.driving == Some(PrefersCar) ==>
                  value >= pts && value >= Floor(car) && (value == pts || value == Floor(car)))
            && (trip.driving == Some(Undecided) || trip.driving == None ==> value - pts == 1.0 - value)
  {
  }

  /** A traveller who has not said is scored above one who will drive, exactly where public transport is good but not perfect. */
  lemma UndecidedAboveDriverIff(pts: real, car: bool, luggage: real, trip: Trip)
    requires Unit(pts) && !trip.largeLuggage
    ensures RawTransport(pts, car, luggage, trip.(driving := None)) > RawTransport(pts, car, luggage, trip.(driving := Some(Willing))) <==>
            (if car then 0.7 else 0.5) < pts < 1.0
  {
  }

  /** Large luggage costs nothing in a region that suits it, and fifteen per cent in one that does not at all. */
  lemma LuggageDiscount(pts: real, car: bool, trip: Trip)
    requires trip.largeLuggage
    ensures var light := trip.(largeLuggage := false);
            && RawTransport(pts, car, 1.0, trip) == RawTransport(pts, car, 1.0, light)
            && RawTransport(pts, car, 0.0, trip) == 0.85 * RawTransport(pts, car, 0.0, light)
  {
  }

  /** A theme the region does not list counts a quarter; of one it lists the first entry counts. */
  lemma {:induction false} StrengthIs(strengths: seq<(string, real)>, interest: string, i: nat)
    ensures (forall k :: 0 <= k < |strengths| ==> strengths[k].0 != interest) ==> Strength(strengths, interest) == 0.25
    ensures i < |strengths| && strengths[i].0 == interest && (forall k :: 0 <= k < i ==> strengths[k].0 != interest) ==>
            Strength(strengths, interest) == strengths[i].1
  {
    if strengths != [] && strengths[0].0 != interest {
      StrengthIs(strengths[1..], interest, if i > 0 then i - 1 else 0);
      assert forall k :: 0 < k < |strengths| ==> strengths[k] == strengths[1..][k - 1];
    }
  }

  function Asked(region: Profile, interests: seq<string>): (scores: seq<real>)
    ensures |scores| == |interests|
    ensures forall i :: 0 <= i < |scores| ==> scores[i] == Strength(region.interests, interests[i])
  {
    seq(|interests|, i requires 0 <= i < |interests| => Strength(region.interests, interests[i]))
  }

  lemma WorstIsLast(scores: seq<real>) returns (worst: real)
    requires scores != []
    ensures Sort(Descending, scores) != [] && worst == Sort(Descending, scores)[|Sort(Descending, scores)| - 1]
    ensures worst in scores && forall i :: 0 <= i < |scores| ==> worst <= scores[i]
  {
    var sorted := Sort(Descending, scores);
    DescendingOrder();
    SortSorted(Descending, scores);
    SortElements(Descending, scores, scores[0]);
    worst := sorted[|sorted| - 1];
    SortElements(Descending, scores, worst);
    forall i | 0 <= i < |scores|
      ensures worst <= scores[i]
    {
      SortElements(Descending, scores, scores[i]);
      var k :| 0 <= k < |sorted| && sorted[k] == scores[i];
      assert k < |sorted| - 1 ==> Descending(sorted[k], sorted[|sorted| - 1]);
    }
  }

  /** Seven tenths of the average match and three tenths of the worst: no other is worse, and it is one of them. */
  lemma InterestBlend(region: Profile, interests: seq<string>) returns (worst: real)
    requires interests != []
    ensures var scores := Asked(region, interests);
            && worst in scores && (forall i :: 0 <= i < |scores| ==> worst <= scores[i])
            && InterestMatch(region, interests) == Round(0.7 * Mean(scores) + 0.3 * worst, 10000)
  {
    var scores := Asked(region, interests);
    worst := WorstIsLast(scores);
    SortMultiset(Descending, scores);
    assert scores == seq(|interests|, i requires 0 <= i < |interests| => Strength(region.interests, interests[i]));
  }

  lemma DescendingOrder()
    ensures TotalOrder(Descending)
  {
  }

  /** With no interests stated, the average of the region's strongest themes: at most three, none left out stronger. */
  lemma StrongestThemes(region: Profile) returns (top: seq<real>, rest: seq<real>)
    requires region.interests != []
    ensures top != [] && |top| <= 3 && (rest != [] ==> |top| == 3)
    ensures multiset(top) + multiset(rest) == multiset(Values(region.interests))
    ensures forall i, j :: 0 <= i < |top| && 0 <= j < |rest| ==> top[i] >= rest[j]
    ensures InterestMatch(region, []) == Round(Mean(top), 10000)
  {
    var values := Values(region.interests);
    var sorted := Sort(Descending, values);
    DescendingOrder();
    SortSorted(Descending, values);
    SortMultiset(Descending, values);
    assert |sorted| == |multiset(sorted)| == |multiset(values)| == |values|;
    top := Take(sorted, 3);
    rest := sorted[|top|..];
    assert sorted == top + rest;
    forall i, j | 0 <= i < |top| && 0 <= j < |rest|
      ensures top[i] >= rest[j]
    {
      assert Descending(sorted[i], sorted[|top| + j]);
    }
  }

  lemma NoThemes(region: Profile)
    requires region.interests == []
    ensures InterestMatch(region, []) == 0.6
  {
    RoundExact(0.6, 10000);
  }

  /** The month's own rating, to four places; 0.6 for an unrated month and 0.7 when no month is known. */
  lemma SeasonIs(region: Profile, trip: Trip)
    ensures trip.month == None ==> SeasonFit(region, trip) == 0.7
    ensures trip.month.Some? && trip.month.value !in region.months ==> SeasonFit(region, trip) == 0.6
    ensures trip.month.Some? && trip.month.value in region.months ==>
              -0.5 <= 10000.0 * (SeasonFit(region, trip) - region.months[trip.month.value]) <= 0.5
  {
    RoundExact(0.7, 10000);
    RoundExact(0.6, 10000);
    if trip.month.Some? && trip.month.value in region.months {
      RoundIsClose(region.months[trip.month.value], 10000);
    }
  }

  /** In twentieths: without history 16, where the traveller has been 3, else 20, 15, 10 or 6 as nought, one, two or more themes repeat. */
  lemma NoveltyInTwentieths(region: Profile, trip: Trip)
    ensures var repeats := |region.overlaps * trip.visited|;
            20.0 * Novelty(region, trip) ==
            if trip.visited == {} then 16.0
            else if exists name :: name in region.names && name in trip.visited then 3.0
            else if repeats == 0 then 20.0 else if repeats == 1 then 15.0 else if repeats == 2 then 10.0 else 6.0
  {
    RoundExact(1.0, 10000);
    RoundExact(0.75, 10000);
    RoundExact(0.5, 10000);
    RoundExact(0.3, 10000);
    if name :| name in region.names && name in trip.visited {
      assert name in region.names * trip.visited;
    }
  }

  /** Booking effort counts against a region; families and limited walkers lose at most a fifth and two fifths of the rest. */
  lemma PracticalityAtEnds(booking: real, luggage: real, stepFree: real, trip: Trip)
    ensures !trip.family && !trip.limitedWalking ==> RawPracticality(booking, luggage, stepFree, trip) + booking == 1.0
    ensures RawPracticality(booking, 1.0, 1.0, trip) + booking == 1.0
    ensures trip.family ==> RawPracticality(booking, 0.0, 1.0, trip) == 0.8 * (1.0 - booking)
    ensures trip.limitedWalking ==> RawPracticality(booking, 1.0, 0.0, trip) == 0.6 * (1.0 - booking)
  {
  }

  /** Between nought and one the value is kept, to four places. */
  lemma ScoreBetween(x: real)
    requires Unit(x)
    ensures -0.5 <= 10000.0 * (Score(x) - x) <= 0.5
  {
    RoundIsClose(x, 10000);
  }

  lemma {:induction false} SumWithout(xs: seq<real>, i: nat)
    requires i < |xs|
    ensures Sum(xs) == xs[i] + Sum(RemoveAt(xs, i))
    ensures Sum([]) == 0.0
  {
    if i == 0 {
      assert RemoveAt(xs, 0) == xs[1..];
    } else {
      SumWithout(xs[1..], i - 1);
      assert RemoveAt(xs, i) == [xs[0]] + RemoveAt(xs[1..], i - 1);
    }
  }

  lemma RatioTimes(a: int, b: int, factor: real)
    requires b > 0
    ensures factor * Ratio(a, b) * b as real == factor * a as real
  {
    var r := Ratio(a, b);
    assert r * b as real == a as real;
    Reorder(factor, r, b as real);
  }

  lemma Reorder(a: real, b: real, c: real)
    ensures a * b * c == a * (b * c)
  {
  }

  /** Below the minimum stay, nights fit is the half in proportion to it. */
  lemma NightsBelowMinimum(lo: nat, ideal: nat, hi: nat, n: nat)
    requires n < lo
    ensures RawNightsFit(lo, ideal, hi, n) * lo as real == 0.5 * n as real
  {
    RatioTimes(n, lo, 0.5);
  }

  /** From 0.7 at the minimum straight up to 1 at the ideal; 0.7 when the two are the same. */
  lemma NightsUpToIdeal(lo: nat, ideal: nat, hi: nat, n: nat)
    requires lo <= n <= ideal
    ensures lo < ideal ==> (RawNightsFit(lo, ideal, hi, n) - 0.7) * (ideal - lo) as real == 0.3 * (n - lo) as real
    ensures lo == ideal ==> RawNightsFit(lo, ideal, hi, n) == 0.7
  {
    if lo < ideal {
      RatioTimes(n - lo, ideal - lo, 0.3);
    }
  }

  /** From there straight down to 0.75 at the longest useful stay. */
  lemma NightsPastIdeal(lo: nat, ideal: nat, hi: nat, n: nat)
    requires lo <= n && ideal < n <= hi
    ensures (1.0 - RawNightsFit(lo, ideal, hi, n)) * (hi - ideal) as real == 0.25 * (n - ideal) as real
  {
    RatioTimes(n - ideal, hi - ideal, 0.25);
  }

  lemma NightsBeyond(lo: nat, ideal: nat, hi: nat, n: nat)
    requires lo <= n && ideal < n && hi < n
    ensures RawNightsFit(lo, ideal, hi, n) == 0.6
  {
  }

  // ----- adding up -----

  const WEIGHTS: seq<real> := [24.0, 22.0, 16.0, 16.0, 12.0, 6.0, 4.0]

  /** Each component moves the score by its own weight, and nothing else does. */
  lemma WeightsAre(c: seq<real>, i: nat, x: real)
    requires |c| == 7 && i < 7
    ensures Weighted(c[i := x]) - Weighted(c) == WEIGHTS[i] * (x - c[i])
    ensures Weighted([0.0, 0.0, 0.0, 0.0, 0.0, 0.0, 0.0]) == 0.0
  {
  }

  /** The components in the order of their weights. */
  lemma ComponentsInOrder(region: Profile, trip: Trip)
    ensures var c := ScoreRegion(region, trip).components;
            var nights := EffectiveNights(trip);
            && |c| == 7 && Inbound(region, trip).hours + Outbound(region, trip).hours >= 0.0
            && c[0] == Score(RawNightsFit(region.minNights, region.idealNights, region.maxNights, nights))
            && c[1] == AccessEfficiency(Inbound(region, trip).hours + Outbound(region, trip).hours, nights)
            && c[2] == Score(RawTransport(region.publicTransport, region.carRecommended, region.luggageFriendliness, trip))
            && c[3] == InterestMatch(region, trip.interests) && c[4] == SeasonFit(region, trip) && c[5] == Novelty(region, trip)
            && c[6] == Score(RawPracticality(region.bookingComplexity, region.luggageFriendliness, region.stepFree, trip))
  {
    InboundIsGateway(region, trip);
  }

  /** The labels start at 72, 58 and 42 of the unrounded score. */
  lemma LabelIff(region: Profile, trip: Trip)
    requires HardFailures(region, trip) == []
    ensures var fit, raw := ScoreRegion(region, trip), Weighted(Components(region, trip));
            && fit.score == Round(raw, 100)
            && (fit.verdict == Strong <==> raw >= 72.0)
            && (fit.verdict == Strong || fit.verdict == Good <==> raw >= 58.0)
            && (fit.verdict != NotRecommended <==> raw >= 42.0)
  {
  }

  /** A region that fails keeps a score up to 38 and is cut to 38 above it. */
  lemma CutIff(region: Profile, trip: Trip)
    requires HardFailures(region, trip) != []
    ensures var fit, raw := ScoreRegion(region, trip), Weighted(Components(region, trip));
            && fit.verdict == NotRecommended && fit.failures == HardFailures(region, trip)
            && (raw <= 38.0 ==> fit.score == Round(raw, 100))
            && (raw >= 38.0 ==> fit.score == 38.0)
  {
    RoundExact(38.0, 100);
  }

  /** Of two ranked regions the earlier scores more, or as much under a smaller code. */
  lemma RankedInOrder(regions: seq<Profile>, trip: Trip, i: nat, j: nat)
    requires i < j < |RankRegions(regions, trip)|
    ensures var a, b := RankRegions(regions, trip)[i], RankRegions(regions, trip)[j];
            a.score > b.score || (a.score == b.score && exists n :: SmallerAt(a.code, b.code, n))
  {
    AheadIsTotal();
    SortSorted(Ahead, Scored(regions, trip));
    var a, b := RankRegions(regions, trip)[i], RankRegions(regions, trip)[j];
    assert Ahead(a, b);
    AlphabeticalIff(a.code, b.code);
  }

  /** Every region given is ranked, as often as it was given. */
  lemma EveryRegionIsRanked(regions: seq<Profile>, trip: Trip)
    ensures multiset(RankRegions(regions, trip)) == multiset(Scored(regions, trip))
    ensures |Scored(regions, trip)| == |regions|
    ensures forall i :: 0 <= i < |regions| ==> Scored(regions, trip)[i] == ScoreRegion(regions[i], trip)
  {
    SortMultiset(Ahead, Scored(regions, trip));
  }
}
