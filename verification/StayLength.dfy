/** When making one stay longer is safe: always, except for a short first stay at a stop passed through. */
module StayLength {
  import opened Wrappers
  import opened Rounding
  import opened Route
  import opened RouteRules
  import opened RouteHealth

  function Lengthened(route: Route, i: nat, nights: nat): Route
    requires i < |route.stops|
  {
    route.(stops := route.stops[i := route.stops[i].(nights := nights)])
  }

  const LONGEST_HOP := 3000

  /** The limit on the duration of a segment. */
  ghost predicate WithinLimit(route: Route) {
    forall i :: 0 <= i < |route.segments| ==> route.segments[i].minutes <= LONGEST_HOP
  }

  ghost predicate NoWorse(longer: Route, route: Route, trip: Trip, km: Distance) {
    HealthRank(GradeHealth(Issues(longer, trip, km))) <= HealthRank(GradeHealth(Issues(route, trip, km)))
  }

  // ----- beds and nights of one longer stay -----

  lemma {:induction false} MovesConcat(a: seq<string>, b: seq<string>)
    ensures Moves(a) + Moves(b) <= Moves(a + b) <= Moves(a) + Moves(b) + 1
  {
    if a == [] {
      assert a + b == b;
    } else {
      assert (a + b)[1..] == a[1..] + b;
      MovesConcat(a[1..], b);
    }
  }

  /** One more stay adds at most two changes of bed. */
  lemma InsertedMoves(a: seq<string>, bed: string, b: seq<string>)
    ensures Moves(a + ([bed] + b)) <= Moves(a + b) + 2
  {
    MovesConcat(a, [bed] + b);
    MovesConcat([bed], b);
    MovesConcat(a, b);
  }

  /** The beds around stop `i`, for a stop that had no night. */
  lemma {:induction false} BedsOfLengthened(stops: seq<Stop>, i: nat, nights: nat) returns (a: seq<string>, b: seq<string>)
    requires i < |stops| && stops[i].nights == 0 && nights > 0
    ensures Beds(stops) == a + b
    ensures Beds(stops[i := stops[i].(nights := nights)]) == a + ([stops[i].bed] + b)
  {
    var longer := stops[i := stops[i].(nights := nights)];
    if i == 0 {
      a, b := [], Beds(stops[1..]);
      assert longer[1..] == stops[1..];
    } else {
      a, b := BedsOfLengthened(stops[1..], i - 1, nights);
      assert longer[1..] == stops[1..][i - 1 := stops[1..][i - 1].(nights := nights)];
      if stops[0].nights > 0 {
        assert [stops[0].bed] + (a + b) == ([stops[0].bed] + a) + b;
        assert [stops[0].bed] + (a + ([stops[i].bed] + b)) == ([stops[0].bed] + a) + ([stops[i].bed] + b);
        a := [stops[0].bed] + a;
      }
    }
  }

  lemma {:induction false} CountsOfLengthened(stops: seq<Stop>, i: nat, nights: nat)
    requires i < |stops| && stops[i].nights == 0 && nights > 1
    ensures var longer := stops[i := stops[i].(nights := nights)];
            && TotalNights(longer) == TotalNights(stops) + nights
            && OneNightStays(longer) == OneNightStays(stops)
            && CoordinatePath(longer) == CoordinatePath(stops)
  {
    var longer := stops[i := stops[i].(nights := nights)];
    if i == 0 {
      assert longer[1..] == stops[1..];
    } else {
      assert longer[1..] == stops[1..][i - 1 := stops[1..][i - 1].(nights := nights)];
      CountsOfLengthened(stops[1..], i - 1, nights);
    }
  }

  lemma {:induction false} NightsAtLengthened(stops: seq<Stop>, i: nat, nights: nat, order: int)
    requires i < |stops|
    ensures var longer := stops[i := stops[i].(nights := nights)];
            NightsAt(longer, order) == nights || NightsAt(longer, order) == NightsAt(stops, order)
  {
    var longer := stops[i := stops[i].(nights := nights)];
    if i == 0 {
      assert longer[1..] == stops[1..];
    } else {
      assert longer[1..] == stops[1..][i - 1 := stops[1..][i - 1].(nights := nights)];
      NightsAtLengthened(stops[1..], i - 1, nights, order);
    }
  }

  lemma {:induction false} FewMovesPerNight(stops: seq<Stop>)
    ensures TotalNights(stops) == 0 ==> Beds(stops) == [] && OneNightStays(stops) == 0
  {
    if stops != [] {
      FewMovesPerNight(stops[1..]);
    }
  }

  // ----- a first stay of six nights or more is safe -----

  /** Two changes of bed more over six nights more leave the ratio within its limit. */
  lemma ChurnAbsorbed(load: TravelLoad, longer: TravelLoad, nights: nat)
    requires nights >= 6 && longer.totalNights == load.totalNights + nights
    requires longer.accommodationChanges <= load.accommodationChanges + 2 && longer.oneNightStays == load.oneNightStays
    requires load.totalNights == 0 ==> load.accommodationChanges == 0 && load.oneNightStays == 0
    ensures Rank(ChurnSeverity(longer)) <= Rank(ChurnSeverity(load))
  {
    var k, n := load.accommodationChanges as real, load.totalNights as real;
    var k', n' := longer.accommodationChanges as real, longer.totalNights as real;
    if k <= 0.6 * n {
      assert k' <= 0.6 * n';
      RatioWithin(k', n');
    } else {
      RatioBeyond(k, n);
    }
  }

  lemma RatioWithin(a: real, b: real)
    requires b > 0.0 && a <= 0.6 * b
    ensures a / b <= 0.6
  {
    assert (a / b) * b == a;
    Cancel(a / b, 0.6, b);
  }

  lemma RatioBeyond(a: real, b: real)
    requires b > 0.0 && a > 0.6 * b
    ensures a / b > 0.6
  {
    assert (a / b) * b == a;
    if a / b <= 0.6 {
      ScaleUp(a / b, 0.6, b);
    }
  }

  lemma LongFirstStayLoad(route: Route, i: nat, nights: nat, km: Distance)
    requires i < |route.stops| && route.stops[i].nights == 0 && nights >= 6
    ensures var load, longer := ComputeTravelLoad(route, km), ComputeTravelLoad(Lengthened(route, i, nights), km);
            && Rank(ChurnSeverity(longer)) <= Rank(ChurnSeverity(load))
            && longer.transitHoursPerNight <= load.transitHoursPerNight
            && longer.transitShare <= load.transitShare
            && longer.detourRatio == load.detourRatio
  {
    var after := Lengthened(route, i, nights);
    var load, longer := ComputeTravelLoad(route, km), ComputeTravelLoad(after, km);
    CountsOfLengthened(route.stops, i, nights);
    var a, b := BedsOfLengthened(route.stops, i, nights);
    InsertedMoves(a, route.stops[i].bed, b);
    FewMovesPerNight(route.stops);
    ChurnAbsorbed(load, longer, nights);
    var hours := HoursOf(TotalMinutes(route.segments));
    var n, n' := TotalNights(route.stops), TotalNights(after.stops);
    FractionMonotone(hours, AtLeastOne(n') as real, hours, AtLeastOne(n) as real);
    RoundMonotone(Burden(after), Burden(route), 100);
    ShareMonotone(hours, n', hours, n);
    RoundMonotone(Share(hours, n'), Share(hours, n), 10000);
  }

  lemma LongFirstStayBurden(route: Route, i: nat, nights: nat)
    requires i < |route.stops| && nights >= 6 && WithinLimit(route)
    ensures NoBetter(PerSegment(TravelBurden, BurdenJudge(Lengthened(route, i, nights).stops), route.segments),
                     PerSegment(TravelBurden, BurdenJudge(route.stops), route.segments))
  {
    var longer := Lengthened(route, i, nights).stops;
    forall k | 0 <= k < |route.segments|
      ensures Rank(BurdenJudge(longer)(route.segments[k])) <= Rank(BurdenJudge(route.stops)(route.segments[k]))
    {
      NightsAtLengthened(route.stops, i, nights, route.segments[k].toOrder);
      BurdenInMinutes(route.segments[k].minutes, nights);
    }
    PerSegmentNoBetter(TravelBurden, BurdenJudge(longer), BurdenJudge(route.stops), route.segments, route.segments);
  }

  lemma LongFirstStayRule(rule: Rule, route: Route, i: nat, nights: nat, trip: Trip, km: Distance)
    requires i < |route.stops| && route.stops[i].nights == 0 && nights >= 6 && WithinLimit(route)
    ensures var longer := Lengthened(route, i, nights);
            NoBetter(Apply(rule, Context(longer, trip, ComputeTravelLoad(longer, km))),
                     Apply(rule, Context(route, trip, ComputeTravelLoad(route, km))))
  {
    var longer := Lengthened(route, i, nights);
    var load, load' := ComputeTravelLoad(longer, km), ComputeTravelLoad(route, km);
    var ctx, ctx' := Context(longer, trip, load), Context(route, trip, load');
    LongFirstStayLoad(route, i, nights, km);
    match rule
    case TravelBurden => LongFirstStayBurden(route, i, nights);
    case AccommodationChurn => ReportNoBetter(rule, ChurnSeverity(load), ChurnSeverity(load'));
    case TransitShare => ReportNoBetter(rule, ShareSeverity(load), ShareSeverity(load'));
    case PaceMismatch => ReportNoBetter(rule, PaceSeverity(trip, load), PaceSeverity(trip, load'));
    case EfficientSegments =>
      PositiveRulesDoNotCount(ctx);
      PositiveRulesDoNotCount(ctx');
    case GoodStayLength =>
      PositiveRulesDoNotCount(ctx);
      PositiveRulesDoNotCount(ctx');
    case _ =>
      assert Apply(rule, ctx) == Apply(rule, ctx');
  }

  lemma LongFirstStayIsSafe(route: Route, i: nat, nights: nat, trip: Trip, km: Distance)
    requires i < |route.stops| && route.stops[i].nights == 0 && nights >= 6 && WithinLimit(route)
    ensures NoWorse(Lengthened(route, i, nights), route, trip, km)
  {
    var longer := Lengthened(route, i, nights);
    var ctx, ctx' := Context(longer, trip, ComputeTravelLoad(longer, km)), Context(route, trip, ComputeTravelLoad(route, km));
    forall rule: Rule
      ensures NoBetter(Apply(rule, ctx), Apply(rule, ctx'))
    {
      LongFirstStayRule(rule, route, i, nights, trip, km);
    }
    RulesNoBetter(REGISTRY, ctx, ctx');
  }

  lemma LongerStayIsSafe(route: Route, i: nat, nights: nat, trip: Trip, km: Distance)
    requires i < |route.stops| && 0 < route.stops[i].nights <= nights
    ensures NoWorse(Lengthened(route, i, nights), route, trip, km)
  {
    HealthIsMonotone(Lengthened(route, i, nights), route, trip, km);
  }

  // ----- a short first stay can hurt -----

  /** Just too long a hop for a first stay of this many nights. */
  function TooLongFor(nights: nat): nat
    requires nights > 0
  {
    600 * (nights - 1) + 240
  }

  /** A month in A, and one hop on to B. */
  function TwoStops(minutes: nat, nights: nat): Route {
    Route([Stop(0, "A", "a", 30, None), Stop(1, "B", "b", nights, None)],
          [Segment(0, 1, minutes, 0, false, false, None, None)], None)
  }

  const EASY_TRIP := Trip(false, None, false)

  lemma PassingThroughLoad(minutes: nat, km: Distance)
    requires minutes <= 2700
    ensures var load := ComputeTravelLoad(TwoStops(minutes, 0), km);
            ChurnSeverity(load) == None && BacktrackingSeverity(load) == None && ShareSeverity(load) == None
  {
    var route := TwoStops(minutes, 0);
    var rest := route.stops[1..];
    assert rest[1..] == [];
    assert TotalNights(rest) == 0 && TotalNights(route.stops) == 30;
    assert Beds(rest) == [] && Beds(route.stops) == ["a"];
    assert OneNightStays(rest) == 0 && CoordinatePath(rest) == [];
    assert route.segments[1..] == [];
    assert TotalMinutes(route.segments) == minutes;
    EasyShare(HoursOf(minutes));
    RoundMonotone(Share(HoursOf(minutes), 30), 0.35, 10000);
    RoundExact(0.35, 10000);
    RoundExact(1.0, 1000);
  }

  lemma EasyShare(hours: real)
    requires 0.0 <= hours <= 45.0
    ensures Share(hours, 30) <= 0.35
  {
    CrossDivide(hours, hours + 300.0, 35.0, 100.0);
  }

  lemma PassingThroughIsQuiet(rule: Rule, minutes: nat, km: Distance)
    requires minutes <= 2700
    ensures Quiet(Apply(rule, Context(TwoStops(minutes, 0), EASY_TRIP, ComputeTravelLoad(TwoStops(minutes, 0), km))))
  {
    var route := TwoStops(minutes, 0);
    var ctx := Context(route, EASY_TRIP, ComputeTravelLoad(route, km));
    PassingThroughLoad(minutes, km);
    match rule
    case TravelBurden =>
      assert NightsAt(route.stops, 1) == NightsAt(route.stops[1..], 1) == 0;
      OneHopReport(rule, BurdenJudge(route.stops), route.segments[0]);
    case LastConnection => OneHopReport(rule, ConnectionSeverity, route.segments[0]);
    case EfficientSegments => PositiveRulesDoNotCount(ctx);
    case GoodStayLength => PositiveRulesDoNotCount(ctx);
    case _ => assert Apply(rule, ctx) == [];
  }

  lemma TooLongForIsTooLong(nights: nat)
    requires nights > 0
    ensures Rank(BurdenSeverity(Round(HoursOf(TooLongFor(nights)), 100), nights)) >= 1
  {
    BurdenInMinutes(TooLongFor(nights), nights);
  }

  lemma OneHopReport(rule: Rule, judge: Segment -> Option<Severity>, hop: Segment)
    ensures PerSegment(rule, judge, [hop]) == Report(rule, judge(hop))
  {
    assert [hop][..0] == [];
  }

  lemma StayingIsNotQuiet(nights: nat)
    requires nights > 0
    ensures var route := TwoStops(TooLongFor(nights), nights);
            !Quiet(PerSegment(TravelBurden, BurdenJudge(route.stops), route.segments))
  {
    var route := TwoStops(TooLongFor(nights), nights);
    assert NightsAt(route.stops, 1) == NightsAt(route.stops[1..], 1) == nights;
    TooLongForIsTooLong(nights);
    OneHopReport(TravelBurden, BurdenJudge(route.stops), route.segments[0]);
    ReportCounts(TravelBurden, BurdenJudge(route.stops)(route.segments[0]));
  }

  lemma PassingThroughIsHealthy(minutes: nat, km: Distance)
    requires minutes <= 2700
    ensures GradeHealth(Issues(TwoStops(minutes, 0), EASY_TRIP, km)) == Healthy
  {
    forall rule: Rule
      ensures Quiet(Apply(rule, Context(TwoStops(minutes, 0), EASY_TRIP, ComputeTravelLoad(TwoStops(minutes, 0), km))))
    {
      PassingThroughIsQuiet(rule, minutes, km);
    }
    HealthyIffEveryRuleIsQuiet(TwoStops(minutes, 0), EASY_TRIP, km);
  }

  /** A rule that is not quiet rules out the best grade. */
  lemma OneRuleIsEnough(rule: Rule, route: Route, trip: Trip, km: Distance)
    requires !Quiet(Apply(rule, Context(route, trip, ComputeTravelLoad(route, km))))
    ensures GradeHealth(Issues(route, trip, km)) != Healthy
  {
    HealthyIffEveryRuleIsQuiet(route, trip, km);
  }

  /** A first stay of up to five nights can worsen the grade: the long hop into it starts to count. */
  lemma FirstNightCanHurt(nights: nat, km: Distance)
    requires 1 <= nights <= 5
    ensures WithinLimit(TwoStops(TooLongFor(nights), 0))
    ensures GradeHealth(Issues(TwoStops(TooLongFor(nights), 0), EASY_TRIP, km)) == Healthy
    ensures GradeHealth(Issues(TwoStops(TooLongFor(nights), nights), EASY_TRIP, km)) != Healthy
  {
    PassingThroughIsHealthy(TooLongFor(nights), km);
    StayingIsNotQuiet(nights);
    OneRuleIsEnough(TravelBurden, TwoStops(TooLongFor(nights), nights), EASY_TRIP, km);
  }

  // ----- exactly when -----

  /** Making a stay of `n` nights one of `m` never worsens a grade, whatever the route, if and only if `n` is not nought or `m` is at least six. */
  lemma LengtheningIsSafeIff(n: nat, m: nat)
    requires n < m
    ensures (forall route: Route, i: nat, trip: Trip, km: Distance |
               WithinLimit(route) && i < |route.stops| && route.stops[i].nights == n ::
               NoWorse(Lengthened(route, i, m), route, trip, km))
            <==> n > 0 || m >= 6
  {
    if n > 0 || m >= 6 {
      forall route: Route, i: nat, trip: Trip, km: Distance |
        WithinLimit(route) && i < |route.stops| && route.stops[i].nights == n
        ensures NoWorse(Lengthened(route, i, m), route, trip, km)
      {
        if n > 0 {
          LongerStayIsSafe(route, i, m, trip, km);
        } else {
          LongFirstStayIsSafe(route, i, m, trip, km);
        }
      }
    } else {
      var route, km := TwoStops(TooLongFor(m), 0), (a: LatLon, b: LatLon) => 0.0;
      FirstNightCanHurt(m, km);
      assert Lengthened(route, 1, m) == TwoStops(TooLongFor(m), m);
      assert !NoWorse(Lengthened(route, 1, m), route, EASY_TRIP, km);
    }
  }
}
