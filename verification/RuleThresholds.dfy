/**
 When each rule speaks, in whole minutes, nights and counts of the route itself: the divisions and the
 roundings of the travel load are gone (`backend/src/jst_api/domain/route_rules.py`).
 */
module RuleThresholds {
  import opened Wrappers
  import opened Enums
  import opened Rounding
  import opened Route
  import opened RouteRules
  import opened RouteHealth

  // ----- rounding against a limit -----

  /** A rounded number exceeds an even whole number exactly when it was more than a half above it: a tie goes down. */
  lemma NearestAboveEven(y: real, limit: int)
    requires limit % 2 == 0
    ensures Nearest(y) > limit <==> y > limit as real + 0.5
  {
  }

  lemma AboveTimes(a: real, b: real, d: real)
    requires d > 0.0
    ensures a > b <==> a * d > b * d
  {
    if a > b {
      ScaleUpStrictly(b, a, d);
    } else {
      ScaleUp(a, b, d);
    }
  }

  lemma AboveCleared(y: real, limit: real, whole: real, cleared: real)
    requires whole > 0.0 && y * whole == cleared
    ensures y > limit <==> cleared > limit * whole
  {
    AboveTimes(y, limit, whole);
  }

  lemma QuotientTimes(part: real, whole: real, scale: real)
    requires whole > 0.0
    ensures (part / whole * scale) * whole == part * scale
  {
    var x := part / whole;
    assert x * whole == part;
    assert (x * scale) * whole == (x * whole) * scale;
  }

  lemma RoundedAbove(x: real, scale: int, limit: int)
    requires scale > 0 && limit % 2 == 0
    ensures Round(x, scale) > limit as real / scale as real <==> x * scale as real > limit as real + 0.5
  {
    NearestAboveEven(x * scale as real, limit);
    AboveFraction(Nearest(x * scale as real), limit, scale);
  }

  lemma AboveFraction(a: int, b: int, scale: int)
    requires scale > 0
    ensures a as real / scale as real > b as real / scale as real <==> a > b
  {
    Undivided(a as real, scale as real);
    Undivided(b as real, scale as real);
    AboveTimes(a as real / scale as real, b as real / scale as real, scale as real);
  }

  /** `part / whole`, rounded, against a limit, cleared of the division. */
  lemma RoundedQuotientAbove(part: real, whole: real, scale: int, limit: int)
    requires whole > 0.0 && scale > 0 && limit % 2 == 0
    ensures Round(part / whole, scale) > limit as real / scale as real <==> part * scale as real > (limit as real + 0.5) * whole
  {
    RoundedAbove(part / whole, scale, limit);
    QuotientTimes(part, whole, scale as real);
    AboveCleared(part / whole * scale as real, limit as real + 0.5, whole, part * scale as real);
  }

  // ----- rules about the whole route -----

  /** A rule that speaks once or not at all. */
  function Verdict(rule: Rule, severity: Option<Severity>): seq<Issue> {
    match severity
    case None => []
    case Some(s) => [Issue(rule, s)]
  }

  function Facts(route: Route, trip: Trip, km: Distance): Context {
    Context(route, trip, ComputeTravelLoad(route, km))
  }

  /** Changes of bed: more than two single nights, or more than three changes in five nights; from five single nights on it is critical. */
  lemma ChurnInCounts(route: Route, trip: Trip, km: Distance)
    ensures var nights, moves, singles := TotalNights(route.stops), Moves(Beds(route.stops)), OneNightStays(route.stops);
            Apply(AccommodationChurn, Facts(route, trip, km)) ==
            Verdict(AccommodationChurn, if nights == 0 || (singles <= 2 && 5 * moves <= 3 * nights) then None
                                        else if singles >= 5 then Some(Critical) else Some(Warning))
  {
    var nights, moves := TotalNights(route.stops), Moves(Beds(route.stops));
    if nights > 0 {
      ChangeRatio(moves, nights);
    }
  }

  lemma ChangeRatio(moves: nat, nights: nat)
    requires nights > 0
    ensures moves as real / nights as real > 0.6 <==> 5 * moves > 3 * nights
  {
    var ratio := moves as real / nights as real;
    assert ratio * nights as real == moves as real;
    AboveTimes(ratio, 0.6, nights as real);
  }

  /** Doubling back: three located stops or more, the ends at least 25 km apart, and a path over 1.6005 times that. */
  lemma BacktrackingInKilometres(route: Route, trip: Trip, km: Distance)
    ensures var points := CoordinatePath(route.stops);
            Apply(Backtracking, Facts(route, trip, km)) ==
            Verdict(Backtracking, if |points| >= 3 && km(points[0], points[|points| - 1]) >= 25.0 &&
                                     2000.0 * PathLength(points, km) > 3201.0 * km(points[0], points[|points| - 1])
                                  then Some(Warning) else None)
  {
    DetourAbove(CoordinatePath(route.stops), km);
  }

  lemma DetourAbove(points: seq<LatLon>, km: Distance)
    ensures Round(DetourRatio(points, km), 1000) > 1.6 <==>
            |points| >= 3 && km(points[0], points[|points| - 1]) >= 25.0 &&
            2000.0 * PathLength(points, km) > 3201.0 * km(points[0], points[|points| - 1])
  {
    if |points| >= 3 && km(points[0], points[|points| - 1]) >= 25.0 {
      RoundedQuotientAbove(PathLength(points, km), km(points[0], points[|points| - 1]), 1000, 1600);
    } else {
      RoundExact(1.0, 1000);
    }
  }

  /** The last hop: nothing without a departure city, a warning from five hours on, critical from six and a half. */
  lemma DepartureInFull(route: Route, trip: Trip, km: Distance)
    ensures Apply(DepartureRisk, Facts(route, trip, km)) ==
            Verdict(DepartureRisk, if route.departureCity == None || route.departureCity == Some("") || route.segments == [] ||
                                      route.segments[|route.segments| - 1].minutes < 300 then None
                                   else if route.segments[|route.segments| - 1].minutes < 390 then Some(Warning) else Some(Critical))
  {
    if route.segments != [] && route.departureCity.Some? && route.departureCity.value != "" {
      DepartureInMinutes(route);
    }
  }

  lemma {:induction false} CarsCounted(segments: seq<Segment>)
    ensures CountCar(segments) > 0 <==> exists i :: 0 <= i < |segments| && segments[i].requiresCar
  {
    if segments != [] {
      CarsCounted(segments[1..]);
      if i :| 0 <= i < |segments| && segments[i].requiresCar {
        assert i > 0 ==> segments[1..][i - 1].requiresCar;
      }
      if i :| 0 <= i < |segments[1..]| && segments[1..][i].requiresCar {
        assert segments[i + 1].requiresCar;
      }
    }
  }

  /** A trip by public transport only is critical as soon as the load counts one hop that needs a car. */
  lemma CarInCounts(route: Route, trip: Trip, km: Distance)
    ensures var facts := Facts(route, trip, km);
            Apply(RouteRules.CarRequired, facts) ==
            Verdict(RouteRules.CarRequired, if trip.publicTransportOnly && facts.load.segmentsRequiringCar > 0 then Some(Critical) else None)
  {
    CarsCounted(route.segments);
    if exists s :: s in route.segments && s.requiresCar {
      var s :| s in route.segments && s.requiresCar;
      var i :| 0 <= i < |route.segments| && route.segments[i] == s;
    }
  }

  /** Time in transit, over 35.005 or 45.005 per cent of the usable hours. */
  lemma ShareInMinutes(route: Route, trip: Trip, km: Distance)
    ensures var minutes, nights := TotalMinutes(route.segments), AtLeastOne(TotalNights(route.stops));
            Apply(TransitShare, Facts(route, trip, km)) ==
            Verdict(TransitShare, if 20000 * minutes <= 7001 * (minutes + 600 * nights) then None
                                  else if 20000 * minutes <= 9001 * (minutes + 600 * nights) then Some(Warning) else Some(Critical))
  {
    var minutes, nights := TotalMinutes(route.segments), TotalNights(route.stops);
    ShareAbove(minutes, nights, 3500);
    ShareAbove(minutes, nights, 4500);
  }

  lemma ShareAbove(minutes: nat, nights: nat, limit: int)
    requires limit % 2 == 0
    ensures Round(Share(HoursOf(minutes), nights), 10000) > limit as real / 10000.0 <==>
            20000 * minutes > (2 * limit + 1) * (minutes + 600 * AtLeastOne(nights))
  {
    PartAbove(HoursOf(minutes), AtLeastOne(nights) as real * 10.0, minutes, AtLeastOne(nights), limit);
  }

  lemma PartAbove(hours: real, usable: real, minutes: nat, nights: nat, limit: int)
    requires 60.0 * hours == minutes as real && 60.0 * usable == (600 * nights) as real && nights > 0 && limit % 2 == 0
    ensures Round(hours / (hours + usable), 10000) > limit as real / 10000.0 <==>
            20000 * minutes > (2 * limit + 1) * (minutes + 600 * nights)
  {
    RoundedQuotientAbove(hours, hours + usable, 10000, limit);
    InSixtieths(hours, usable, minutes, nights, limit);
  }

  /** Both sides times a hundred and twenty. */
  lemma InSixtieths(hours: real, usable: real, minutes: nat, nights: nat, limit: int)
    requires 60.0 * hours == minutes as real && 60.0 * usable == (600 * nights) as real
    ensures hours * 10000.0 > (limit as real + 0.5) * (hours + usable) <==>
            20000 * minutes > (2 * limit + 1) * (minutes + 600 * nights)
  {
    var whole, all := hours + usable, minutes + 600 * nights;
    assert 120.0 * ((limit as real + 0.5) * whole) == (2 * limit + 1) as real * all as real by {
      Regroup(limit as real + 0.5, whole, all as real);
    }
    WholeProduct(2 * limit + 1, all);
  }

  lemma Regroup(c: real, whole: real, all: real)
    requires 60.0 * whole == all
    ensures 120.0 * (c * whole) == (2.0 * c) * all
  {
  }

  lemma WholeProduct(a: int, b: int)
    ensures (a * b) as real == a as real * b as real
  {
  }

  /** Tenths of a minute in transit a night that each pace bears. */
  function PaceTenths(pace: Pace): nat {
    match pace
    case Relaxed => 1203
    case Balanced => 1803
    case Fast => 2703
  }

  /** Pace: over 120.3, 180.3 or 270.3 minutes in transit a night. */
  lemma PaceInMinutes(route: Route, trip: Trip, km: Distance)
    ensures var minutes, nights := TotalMinutes(route.segments), AtLeastOne(TotalNights(route.stops));
            Apply(PaceMismatch, Facts(route, trip, km)) ==
            Verdict(PaceMismatch, if trip.pace.Some? && 10 * minutes > PaceTenths(trip.pace.value) * nights then Some(Warning) else None)
  {
    var minutes, nights := TotalMinutes(route.segments), TotalNights(route.stops);
    PaceAbove(minutes, nights, 200);
    PaceAbove(minutes, nights, 300);
    PaceAbove(minutes, nights, 450);
  }

  lemma PaceAbove(minutes: nat, nights: nat, limit: int)
    requires limit % 2 == 0
    ensures Round(HoursOf(minutes) / AtLeastOne(nights) as real, 100) > limit as real / 100.0 <==>
            1000 * minutes > (600 * limit + 300) * AtLeastOne(nights)
  {
    var n := AtLeastOne(nights);
    RoundedQuotientAbove(HoursOf(minutes), n as real, 100, limit);
    assert 600.0 * ((limit as real + 0.5) * n as real) == (600.0 * (limit as real + 0.5)) * n as real;
    assert 600.0 * (HoursOf(minutes) * 100.0) == (1000 * minutes) as real;
    assert ((600 * limit + 300) * n) as real == (600 * limit + 300) as real * n as real;
  }

  /** Large luggage and a hop of three changes or more. */
  lemma LuggageInChanges(ctx: Context)
    ensures Apply(LuggageRisk, ctx) ==
            Verdict(LuggageRisk, if ctx.trip.largeLuggage && exists i :: 0 <= i < |ctx.route.segments| && ctx.route.segments[i].transfers > 2
                                 then Some(Warning) else None)
  {
    if exists s :: s in ctx.route.segments && s.transfers >= 3 {
      var s :| s in ctx.route.segments && s.transfers >= 3;
      var i :| 0 <= i < |ctx.route.segments| && ctx.route.segments[i] == s;
    }
  }

  /** A proper base: some stay of three nights or more. */
  lemma StayInNights(ctx: Context)
    ensures var stops := ctx.route.stops;
            Apply(GoodStayLength, ctx) ==
            Verdict(GoodStayLength, if exists i :: 0 <= i < |stops| && stops[i].nights > 2 then Some(Good) else None)
  {
    var stops := ctx.route.stops;
    if exists s :: s in stops && s.nights >= 3 {
      var s :| s in stops && s.nights >= 3;
      var i :| 0 <= i < |stops| && stops[i] == s;
    }
  }

  // ----- the rest of the load -----

  /** The longest hop is one of the hops, and no hop is longer; nought when there is none. */
  lemma {:induction false} LongestIs(segments: seq<Segment>)
    ensures segments == [] ==> LongestMinutes(segments) == 0
    ensures forall i :: 0 <= i < |segments| ==> segments[i].minutes <= LongestMinutes(segments)
    ensures segments != [] ==> exists i :: 0 <= i < |segments| && segments[i].minutes == LongestMinutes(segments)
  {
    if segments != [] {
      LongestIs(segments[1..]);
      if |segments| > 1 {
        var k :| 0 <= k < |segments[1..]| && segments[1..][k].minutes == LongestMinutes(segments[1..]);
        assert segments[k + 1].minutes == LongestMinutes(segments[1..]);
      }
      assert segments[0].minutes <= LongestMinutes(segments);
      forall i | 0 <= i < |segments|
        ensures segments[i].minutes <= LongestMinutes(segments)
      {
        if i > 0 {
          assert segments[i] == segments[1..][i - 1];
        }
      }
    }
  }

  /** Minutes, cars and estimates are counted hop by hop. */
  lemma {:induction false} HopsAddUp(segments: seq<Segment>, hop: Segment)
    ensures TotalMinutes([]) == 0 && CountCar([]) == 0 && CountEstimates([]) == 0
    ensures TotalMinutes(segments + [hop]) == TotalMinutes(segments) + hop.minutes
    ensures CountCar(segments + [hop]) == CountCar(segments) + if hop.requiresCar then 1 else 0
    ensures CountEstimates(segments + [hop]) == CountEstimates(segments) + if hop.isEstimate then 1 else 0
  {
    if segments == [] {
      assert (segments + [hop])[1..] == [];
    } else {
      assert (segments + [hop])[1..] == segments[1..] + [hop];
      HopsAddUp(segments[1..], hop);
    }
  }

  /** The path goes through the located stops in order, one leg from each to the next. */
  lemma {:induction false} PathAddsUp(points: seq<LatLon>, next: LatLon, km: Distance)
    ensures PathLength([], km) == 0.0 && PathLength([next], km) == 0.0
    ensures points != [] ==> PathLength(points + [next], km) == PathLength(points, km) + km(points[|points| - 1], next)
  {
    if |points| == 1 {
      assert points + [next] == [points[0], next];
    } else if |points| > 1 {
      assert (points + [next])[1..] == points[1..] + [next];
      PathAddsUp(points[1..], next, km);
    }
  }

  lemma {:induction false} PathVisits(stops: seq<Stop>, stop: Stop)
    ensures CoordinatePath([]) == []
    ensures CoordinatePath(stops + [stop]) == CoordinatePath(stops) + if stop.coords.Some? then [stop.coords.value] else []
  {
    if stops == [] {
      assert (stops + [stop])[1..] == [];
    } else {
      assert (stops + [stop])[1..] == stops[1..] + [stop];
      PathVisits(stops[1..], stop);
    }
  }

  /** `rounded` is `exact` to two decimals. */
  ghost predicate ToHundredths(rounded: real, exact: real) {
    -0.5 <= 100.0 * (rounded - exact) <= 0.5
  }

  /** Every field of the load, against the route: counts as they are, hours to a hundredth, the share to four places. */
  lemma LoadIs(route: Route, km: Distance)
    ensures var load, hours, nights := ComputeTravelLoad(route, km), HoursOf(TotalMinutes(route.segments)), TotalNights(route.stops);
            && load.totalNights == nights && load.accommodationChanges == Moves(Beds(route.stops))
            && load.oneNightStays == OneNightStays(route.stops)
            && load.segmentsRequiringCar == CountCar(route.segments) && load.estimatedSegments == CountEstimates(route.segments)
            && ToHundredths(load.totalTransitHours, hours)
            && ToHundredths(load.longestSegmentHours, HoursOf(LongestMinutes(route.segments)))
            && ToHundredths(load.transitHoursPerNight, hours / AtLeastOne(nights) as real)
            && -0.5 <= 10000.0 * (load.transitShare - Share(hours, nights)) <= 0.5
            && -0.5 <= 1000.0 * (load.detourRatio - DetourRatio(CoordinatePath(route.stops), km)) <= 0.5
  {
    var hours, nights := HoursOf(TotalMinutes(route.segments)), TotalNights(route.stops);
    RoundIsClose(hours, 100);
    RoundIsClose(HoursOf(LongestMinutes(route.segments)), 100);
    RoundIsClose(hours / AtLeastOne(nights) as real, 100);
    RoundIsClose(Share(hours, nights), 10000);
    RoundIsClose(DetourRatio(CoordinatePath(route.stops), km), 1000);
  }

  /** A trip counts as dominated by travel when thirteen times its minutes exceed 4200 a night; nothing is rounded here. */
  lemma DominatedInMinutes(route: Route, km: Distance)
    ensures ComputeTravelLoad(route, km).isTravelDominated <==>
            13 * TotalMinutes(route.segments) > 4200 * AtLeastOne(TotalNights(route.stops))
  {
    var minutes, nights := TotalMinutes(route.segments), AtLeastOne(TotalNights(route.stops));
    ShareOver(HoursOf(minutes), nights as real * 10.0, HoursOf(minutes) + nights as real * 10.0, 0.35);
  }

  lemma ShareOver(part: real, rest: real, whole: real, limit: real)
    requires whole == part + rest && rest > 0.0 && part >= 0.0
    ensures part / whole > limit <==> part > limit * whole
  {
    Undivided(part, whole);
    AboveCleared(part / whole, limit, whole, part);
  }

  // ----- rules about single hops -----

  /**
   The last connection: leaving at ten, the traveller is at the last local stage after the minutes that
   precede it, and needs three quarters of an hour in hand; missing the departure is critical.
   */
  lemma ConnectionInMinutes(seg: Segment)
    requires seg.lastDeparture.Some?
    ensures var leg := if seg.finalLegMinutes.Some? then seg.finalLegMinutes.value else 0;
            var last := seg.lastDeparture.value;
            ConnectionSeverity(seg) ==
            if last >= 645 && last + leg >= 645 + seg.minutes then None
            else if last >= 600 && last + leg >= 600 + seg.minutes then Some(Warning) else Some(Critical)
  {
  }

  lemma NoConnectionToMiss(seg: Segment)
    requires seg.lastDeparture == None
    ensures ConnectionSeverity(seg) == None
  {
  }

  /** A good hop: three hours at most, one change at most, and at least a night at the end of it. */
  lemma EfficientInMinutes(seg: Segment, nights: nat)
    ensures EfficientSeverity(seg, nights) == if seg.minutes <= 180 && seg.transfers < 2 && nights > 0 then Some(Good) else None
  {
    RoundedHoursThreshold(seg.minutes, 180);
  }

  /** The number of hops a rule objects to. */
  function Objections(judge: Segment -> Option<Severity>, segments: seq<Segment>): nat {
    if segments == [] then 0
    else Objections(judge, segments[..|segments| - 1]) + if judge(segments[|segments| - 1]).Some? then 1 else 0
  }

  /** One issue a hop the rule objects to, under its name and with the severity of that hop. */
  lemma {:induction false} PerSegmentReports(rule: Rule, judge: Segment -> Option<Severity>, segments: seq<Segment>, i: nat)
    ensures |PerSegment(rule, judge, segments)| == Objections(judge, segments)
    ensures i < |segments| && judge(segments[i]).Some? ==>
              Objections(judge, segments[..i]) < |PerSegment(rule, judge, segments)| &&
              PerSegment(rule, judge, segments)[Objections(judge, segments[..i])] == Issue(rule, judge(segments[i]).value)
  {
    if segments != [] {
      var n := |segments| - 1;
      PerSegmentReports(rule, judge, segments[..n], i);
      if i < n {
        assert segments[..n][..i] == segments[..i];
      }
    }
  }

  /** What the travel-burden rule makes of a hop: its minutes against the nights at its end. */
  lemma BurdenReports(ctx: Context, seg: Segment)
    ensures Apply(TravelBurden, ctx) == PerSegment(TravelBurden, BurdenJudge(ctx.route.stops), ctx.route.segments)
    ensures var nights := NightsAt(ctx.route.stops, seg.toOrder);
            BurdenJudge(ctx.route.stops)(seg) ==
            if nights == 0 then None
            else if nights == 1 then
              if seg.minutes >= 240 then Some(Critical) else if seg.minutes >= 180 then Some(Warning) else None
            else if seg.minutes > 600 * (nights - 1) then Some(Warning) else None
  {
    BurdenInMinutes(seg.minutes, NightsAt(ctx.route.stops, seg.toOrder));
  }

  /** The last connection is judged hop by hop, and so is what is praised, by the nights at the end of the hop. */
  lemma ConnectionReports(ctx: Context, seg: Segment)
    ensures Apply(LastConnection, ctx) == PerSegment(LastConnection, ConnectionSeverity, ctx.route.segments)
    ensures EfficientJudge(ctx.route.stops)(seg) ==
            if seg.minutes <= 180 && seg.transfers < 2 && NightsAt(ctx.route.stops, seg.toOrder) > 0 then Some(Good) else None
  {
    EfficientInMinutes(seg, NightsAt(ctx.route.stops, seg.toOrder));
  }

  // ----- the whole list -----

  lemma InPart<T>(a: seq<T>, b: seq<T>, x: T)
    ensures x in a + b <==> x in a || x in b
  {
  }

  ghost predicate Reports(rules: seq<Rule>, ctx: Context, issue: Issue) {
    exists i :: 0 <= i < |rules| && issue in Apply(rules[i], ctx)
  }

  lemma ReportsStep(rules: seq<Rule>, n: nat, ctx: Context, issue: Issue)
    requires |rules| == n + 1
    ensures Reports(rules, ctx, issue) <==> Reports(rules[..n], ctx, issue) || issue in Apply(rules[n], ctx)
  {
    if i :| 0 <= i < |rules| && issue in Apply(rules[i], ctx) {
      assert i < n ==> issue in Apply(rules[..n][i], ctx);
    }
    if i :| 0 <= i < n && issue in Apply(rules[..n][i], ctx) {
      assert issue in Apply(rules[i], ctx);
    }
  }

  lemma {:induction false} SomeRuleReports(rules: seq<Rule>, ctx: Context, issue: Issue)
    ensures issue in ApplyAll(rules, ctx) <==> Reports(rules, ctx, issue)
  {
    if rules != [] {
      var n := |rules| - 1;
      SomeRuleReports(rules[..n], ctx, issue);
      ReportsStep(rules, n, ctx, issue);
      InPart(ApplyAll(rules[..n], ctx), Apply(rules[n], ctx), issue);
    }
  }

  /** The engine reports an issue if and only if one of the eleven rules does. */
  lemma ReportedIff(route: Route, trip: Trip, km: Distance, issue: Issue)
    ensures issue in Issues(route, trip, km) <==> exists rule: Rule :: issue in Apply(rule, Facts(route, trip, km))
  {
    var ctx := Facts(route, trip, km);
    SomeRuleReports(REGISTRY, ctx, issue);
    if rule: Rule :| issue in Apply(rule, ctx) {
      assert REGISTRY[RegistryIndex(rule)] == rule;
    }
  }

  /** At most four good hops are praised, the first ones. */
  lemma PraiseIsCapped(ctx: Context)
    ensures var praise := Apply(EfficientSegments, ctx);
            var judge := EfficientJudge(ctx.route.stops);
            && |praise| == (if Objections(judge, ctx.route.segments) < 4 then Objections(judge, ctx.route.segments) else 4)
            && praise <= PerSegment(EfficientSegments, judge, ctx.route.segments)
  {
    PerSegmentReports(EfficientSegments, EfficientJudge(ctx.route.stops), ctx.route.segments, 0);
  }
}
