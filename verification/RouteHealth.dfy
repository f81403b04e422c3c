/** What holds of the whole rules engine: the grade never rewards a slower hop or a shorter stay. */
module RouteHealth {
  import opened Wrappers
  import opened Rounding
  import opened Route
  import opened RouteRules

  // ----- comparing routes, severities and grades -----

  /**
   `worse` is the same trip with some hops slower and some stays shorter, no stay being cut to
   nothing; read from `worse` to `route`, hops get faster and stays get longer.
   */
  ghost predicate Harder(route: Route, worse: Route) {
    && HarderStops(route.stops, worse.stops)
    && HarderSegments(route.segments, worse.segments)
    && route.departureCity == worse.departureCity
  }

  ghost predicate HarderStops(stops: seq<Stop>, worse: seq<Stop>) {
    && |stops| == |worse|
    && forall i :: 0 <= i < |stops| ==>
         && worse[i] == stops[i].(nights := worse[i].nights)
         && worse[i].nights <= stops[i].nights
         && (worse[i].nights == 0 ==> stops[i].nights == 0)
  }

  ghost predicate HarderSegments(segments: seq<Segment>, worse: seq<Segment>) {
    && |segments| == |worse|
    && forall i :: 0 <= i < |segments| ==>
         worse[i] == segments[i].(minutes := worse[i].minutes) && segments[i].minutes <= worse[i].minutes
  }

  function Rank(severity: Option<Severity>): nat {
    if severity == Some(Critical) then 2 else if severity == Some(Warning) then 1 else 0
  }

  function HealthRank(health: Health): nat {
    match health
    case Healthy => 0
    case NeedsImprovement => 1
    case HighRisk => 2
  }

  function Problems(issues: seq<Issue>): nat {
    Count(issues, Critical) + Count(issues, Warning)
  }

  /** At least as many critical issues, and at least as many issues that are critical or warnings. */
  ghost predicate NoBetter(issues: seq<Issue>, worse: seq<Issue>) {
    Count(issues, Critical) <= Count(worse, Critical) && Problems(issues) <= Problems(worse)
  }

  // ----- counting -----

  lemma {:induction false} CountConcat(a: seq<Issue>, b: seq<Issue>, severity: Severity)
    ensures Count(a + b, severity) == Count(a, severity) + Count(b, severity)
  {
    if b == [] {
      assert a + b == a;
    } else {
      assert (a + b)[..|a + b| - 1] == a + b[..|b| - 1];
      CountConcat(a, b[..|b| - 1], severity);
    }
  }

  lemma NoBetterConcat(a: seq<Issue>, b: seq<Issue>, a': seq<Issue>, b': seq<Issue>)
    requires NoBetter(a, a') && NoBetter(b, b')
    ensures NoBetter(a + b, a' + b')
  {
    CountConcat(a, b, Critical);
    CountConcat(a, b, Warning);
    CountConcat(a', b', Critical);
    CountConcat(a', b', Warning);
  }

  lemma ReportNoBetter(rule: Rule, severity: Option<Severity>, worse: Option<Severity>)
    requires Rank(severity) <= Rank(worse)
    ensures NoBetter(Report(rule, severity), Report(rule, worse))
  {
    ReportCounts(rule, severity);
    ReportCounts(rule, worse);
  }

  lemma ReportCounts(rule: Rule, severity: Option<Severity>)
    ensures Count(Report(rule, severity), Critical) == if Rank(severity) == 2 then 1 else 0
    ensures Problems(Report(rule, severity)) == if Rank(severity) >= 1 then 1 else 0
  {
    var issues := Report(rule, severity);
    if issues != [] {
      assert issues[..0] == [];
      assert Count(issues[..0], Critical) == 0 && Count(issues[..0], Warning) == 0;
    }
  }

  lemma {:induction false} PerSegmentNoBetter(rule: Rule, judge: Segment -> Option<Severity>, judge': Segment -> Option<Severity>,
                                              segments: seq<Segment>, worse: seq<Segment>)
    requires |segments| == |worse|
    requires forall i :: 0 <= i < |segments| ==> Rank(judge(segments[i])) <= Rank(judge'(worse[i]))
    ensures NoBetter(PerSegment(rule, judge, segments), PerSegment(rule, judge', worse))
  {
    if segments != [] {
      var n := |segments| - 1;
      PerSegmentNoBetter(rule, judge, judge', segments[..n], worse[..n]);
      ReportNoBetter(rule, judge(segments[n]), judge'(worse[n]));
      NoBetterConcat(PerSegment(rule, judge, segments[..n]), Report(rule, judge(segments[n])),
                     PerSegment(rule, judge', worse[..n]), Report(rule, judge'(worse[n])));
    }
  }

  lemma {:induction false} GoodIssuesDoNotCount(issues: seq<Issue>)
    requires forall i :: 0 <= i < |issues| ==> issues[i].severity == Good
    ensures Count(issues, Critical) == 0 && Problems(issues) == 0
  {
    if issues != [] {
      GoodIssuesDoNotCount(issues[..|issues| - 1]);
    }
  }

  lemma {:induction false} EfficientIssuesAreGood(stops: seq<Stop>, segments: seq<Segment>)
    ensures forall i :: 0 <= i < |PerSegment(EfficientSegments, EfficientJudge(stops), segments)| ==>
                PerSegment(EfficientSegments, EfficientJudge(stops), segments)[i].severity == Good
  {
    if segments != [] {
      EfficientIssuesAreGood(stops, segments[..|segments| - 1]);
    }
  }

  // ----- the load gets worse -----

  lemma {:induction false} HarderStopsCounts(stops: seq<Stop>, worse: seq<Stop>)
    requires HarderStops(stops, worse)
    ensures TotalNights(worse) <= TotalNights(stops)
    ensures TotalNights(worse) == 0 ==> TotalNights(stops) == 0
    ensures OneNightStays(stops) <= OneNightStays(worse)
    ensures Beds(stops) == Beds(worse)
    ensures CoordinatePath(stops) == CoordinatePath(worse)
  {
    if stops != [] {
      HarderStopsCounts(stops[1..], worse[1..]);
    }
  }

  lemma {:induction false} HarderNightsAt(stops: seq<Stop>, worse: seq<Stop>, order: int)
    requires HarderStops(stops, worse)
    ensures NightsAt(worse, order) <= NightsAt(stops, order)
    ensures NightsAt(worse, order) == 0 ==> NightsAt(stops, order) == 0
  {
    if stops != [] {
      HarderNightsAt(stops[1..], worse[1..], order);
    }
  }

  lemma {:induction false} HarderMinutes(segments: seq<Segment>, worse: seq<Segment>)
    requires HarderSegments(segments, worse)
    ensures TotalMinutes(segments) <= TotalMinutes(worse)
  {
    if segments != [] {
      HarderMinutes(segments[1..], worse[1..]);
    }
  }

  lemma HoursMonotone(m: nat, n: nat)
    requires m <= n
    ensures 0.0 <= HoursOf(m) <= HoursOf(n)
  {
  }

  lemma FractionMonotone(a: real, b: real, a': real, b': real)
    requires 0.0 <= a <= a' && 0.0 < b' <= b
    ensures a / b <= a' / b'
  {
    ScaleUp(a, a', b');
    ScaleUp(b', b, a');
    CrossDivide(a, b, a', b');
  }

  /** How the load of a harder route compares. */
  ghost predicate LoadNoBetter(load: TravelLoad, worse: TravelLoad) {
    && worse.totalNights <= load.totalNights
    && (worse.totalNights == 0 ==> load.totalNights == 0)
    && worse.accommodationChanges == load.accommodationChanges
    && load.oneNightStays <= worse.oneNightStays
    && load.transitHoursPerNight <= worse.transitHoursPerNight
    && load.transitShare <= worse.transitShare
    && worse.detourRatio == load.detourRatio
  }

  lemma HarderRouteLoad(route: Route, worse: Route, km: Distance)
    requires Harder(route, worse)
    ensures LoadNoBetter(ComputeTravelLoad(route, km), ComputeTravelLoad(worse, km))
  {
    HarderStopsCounts(route.stops, worse.stops);
    HarderMinutes(route.segments, worse.segments);
    var hours, hours' := HoursOf(TotalMinutes(route.segments)), HoursOf(TotalMinutes(worse.segments));
    var nights, nights' := TotalNights(route.stops), TotalNights(worse.stops);
    HoursMonotone(TotalMinutes(route.segments), TotalMinutes(worse.segments));
    FractionMonotone(hours, AtLeastOne(nights) as real, hours', AtLeastOne(nights') as real);
    RoundMonotone(Burden(route), Burden(worse), 100);
    ShareMonotone(hours, nights, hours', nights');
    RoundMonotone(Share(hours, nights), Share(hours', nights'), 10000);
  }

  // ----- each rule -----

  lemma BurdenNoBetter(hours: real, nights: nat, hours': real, nights': nat)
    requires hours <= hours' && nights' <= nights && (nights' == 0 ==> nights == 0)
    ensures Rank(BurdenSeverity(hours, nights)) <= Rank(BurdenSeverity(hours', nights'))
  {
  }

  lemma ChurnNoBetter(load: TravelLoad, worse: TravelLoad)
    requires LoadNoBetter(load, worse)
    ensures Rank(ChurnSeverity(load)) <= Rank(ChurnSeverity(worse))
  {
    if load.totalNights > 0 {
      FractionMonotone(load.accommodationChanges as real, load.totalNights as real,
                       worse.accommodationChanges as real, worse.totalNights as real);
    }
  }

  lemma SlowerSegment(segments: seq<Segment>, worse: seq<Segment>, i: nat)
    requires HarderSegments(segments, worse) && i < |segments|
    ensures Hours(segments[i]) <= Hours(worse[i])
    ensures Rank(ConnectionSeverity(segments[i])) <= Rank(ConnectionSeverity(worse[i]))
  {
    HoursMonotone(segments[i].minutes, worse[i].minutes);
    RoundMonotone(HoursOf(segments[i].minutes), HoursOf(worse[i].minutes), 100);
  }

  lemma SegmentRulesNoBetter(route: Route, worse: Route)
    requires Harder(route, worse)
    ensures NoBetter(PerSegment(TravelBurden, BurdenJudge(route.stops), route.segments),
                     PerSegment(TravelBurden, BurdenJudge(worse.stops), worse.segments))
    ensures NoBetter(PerSegment(LastConnection, ConnectionSeverity, route.segments),
                     PerSegment(LastConnection, ConnectionSeverity, worse.segments))
  {
    var f, f' := BurdenJudge(route.stops), BurdenJudge(worse.stops);
    forall i | 0 <= i < |route.segments|
      ensures Rank(f(route.segments[i])) <= Rank(f'(worse.segments[i]))
      ensures Rank(ConnectionSeverity(route.segments[i])) <= Rank(ConnectionSeverity(worse.segments[i]))
    {
      var order := route.segments[i].toOrder;
      SlowerSegment(route.segments, worse.segments, i);
      HarderNightsAt(route.stops, worse.stops, order);
      BurdenNoBetter(Hours(route.segments[i]), NightsAt(route.stops, order), Hours(worse.segments[i]), NightsAt(worse.stops, order));
    }
    PerSegmentNoBetter(TravelBurden, f, f', route.segments, worse.segments);
    PerSegmentNoBetter(LastConnection, ConnectionSeverity, ConnectionSeverity, route.segments, worse.segments);
  }

  lemma OffendersAreTheSame(route: Route, worse: Route, trip: Trip, load: TravelLoad, load': TravelLoad)
    requires Harder(route, worse)
    ensures CarSeverity(Context(route, trip, load)) == CarSeverity(Context(worse, trip, load'))
    ensures LuggageSeverity(Context(route, trip, load)) == LuggageSeverity(Context(worse, trip, load'))
  {
    forall i | 0 <= i < |route.segments|
      ensures route.segments[i] in route.segments && worse.segments[i] in worse.segments
      ensures route.segments[i].requiresCar == worse.segments[i].requiresCar
      ensures route.segments[i].transfers == worse.segments[i].transfers
    {
    }
  }

  lemma PositiveRulesDoNotCount(ctx: Context)
    ensures Count(Apply(EfficientSegments, ctx), Critical) == 0 && Problems(Apply(EfficientSegments, ctx)) == 0
    ensures Count(Apply(GoodStayLength, ctx), Critical) == 0 && Problems(Apply(GoodStayLength, ctx)) == 0
  {
    EfficientIssuesAreGood(ctx.route.stops, ctx.route.segments);
    GoodIssuesDoNotCount(Apply(EfficientSegments, ctx));
    GoodIssuesDoNotCount(Apply(GoodStayLength, ctx));
  }

  lemma RuleNoBetter(rule: Rule, route: Route, worse: Route, trip: Trip, km: Distance)
    requires Harder(route, worse)
    ensures NoBetter(Apply(rule, Context(route, trip, ComputeTravelLoad(route, km))),
                     Apply(rule, Context(worse, trip, ComputeTravelLoad(worse, km))))
  {
    var load, load' := ComputeTravelLoad(route, km), ComputeTravelLoad(worse, km);
    var ctx, ctx' := Context(route, trip, load), Context(worse, trip, load');
    HarderRouteLoad(route, worse, km);
    match rule
    case TravelBurden => SegmentRulesNoBetter(route, worse);
    case AccommodationChurn =>
      ChurnNoBetter(load, load');
      ReportNoBetter(rule, ChurnSeverity(load), ChurnSeverity(load'));
    case Backtracking => ReportNoBetter(rule, BacktrackingSeverity(load), BacktrackingSeverity(load'));
    case DepartureRisk =>
      if route.segments != [] {
        SlowerSegment(route.segments, worse.segments, |route.segments| - 1);
      }
      ReportNoBetter(rule, DepartureSeverity(route), DepartureSeverity(worse));
    case CarRequired =>
      OffendersAreTheSame(route, worse, trip, load, load');
      ReportNoBetter(rule, CarSeverity(ctx), CarSeverity(ctx'));
    case LastConnection => SegmentRulesNoBetter(route, worse);
    case TransitShare => ReportNoBetter(rule, ShareSeverity(load), ShareSeverity(load'));
    case PaceMismatch => ReportNoBetter(rule, PaceSeverity(trip, load), PaceSeverity(trip, load'));
    case LuggageRisk =>
      OffendersAreTheSame(route, worse, trip, load, load');
      ReportNoBetter(rule, LuggageSeverity(ctx), LuggageSeverity(ctx'));
    case EfficientSegments =>
      PositiveRulesDoNotCount(ctx);
      PositiveRulesDoNotCount(ctx');
    case GoodStayLength =>
      PositiveRulesDoNotCount(ctx);
      PositiveRulesDoNotCount(ctx');
  }

  /** What holds rule by rule holds of all of them together. */
  lemma {:induction false} RulesNoBetter(rules: seq<Rule>, ctx: Context, worse: Context)
    requires forall rule: Rule :: NoBetter(Apply(rule, ctx), Apply(rule, worse))
    ensures NoBetter(ApplyAll(rules, ctx), ApplyAll(rules, worse))
  {
    if rules != [] {
      var n := |rules| - 1;
      RulesNoBetter(rules[..n], ctx, worse);
      NoBetterConcat(ApplyAll(rules[..n], ctx), Apply(rules[n], ctx), ApplyAll(rules[..n], worse), Apply(rules[n], worse));
    }
  }

  // ----- the whole engine -----

  /**
   Slowing any hops down and shortening any stays, without cutting one to nothing, never improves
   the grade - across every rule, the load computation with its roundings, and the grading.
   */
  lemma HealthIsMonotone(route: Route, worse: Route, trip: Trip, km: Distance)
    requires Harder(route, worse)
    ensures HealthRank(GradeHealth(Issues(route, trip, km))) <= HealthRank(GradeHealth(Issues(worse, trip, km)))
    ensures Count(Issues(route, trip, km), Critical) <= Count(Issues(worse, trip, km), Critical)
  {
    var ctx := Context(route, trip, ComputeTravelLoad(route, km));
    var ctx' := Context(worse, trip, ComputeTravelLoad(worse, km));
    forall rule: Rule
      ensures NoBetter(Apply(rule, ctx), Apply(rule, ctx'))
    {
      RuleNoBetter(rule, route, worse, trip, km);
    }
    RulesNoBetter(REGISTRY, ctx, ctx');
  }

  // ----- what the grade means, for any list of issues -----

  /** Two of the issues are critical. */
  ghost predicate TwoCritical(issues: seq<Issue>) {
    exists i, j :: 0 <= i < j < |issues| && issues[i].severity == Critical && issues[j].severity == Critical
  }

  ghost predicate Raises(issues: seq<Issue>, severity: Severity) {
    exists i :: 0 <= i < |issues| && issues[i].severity == severity
  }

  lemma {:induction false} CountsAny(issues: seq<Issue>, severity: Severity)
    ensures Count(issues, severity) >= 1 <==> Raises(issues, severity)
  {
    if issues != [] {
      var n := |issues| - 1;
      CountsAny(issues[..n], severity);
      assert forall i :: 0 <= i < n ==> issues[..n][i] == issues[i];
    }
  }

  lemma {:induction false} CountsTwo(issues: seq<Issue>)
    ensures Count(issues, Critical) >= 2 <==> TwoCritical(issues)
  {
    if issues != [] {
      var n := |issues| - 1;
      CountsTwo(issues[..n]);
      CountsAny(issues[..n], Critical);
      assert forall i :: 0 <= i < n ==> issues[..n][i] == issues[i];
    }
  }

  /** High risk is two critical issues; healthy is none, and no warning either; everything else needs improvement. */
  lemma GradeMeans(issues: seq<Issue>)
    ensures GradeHealth(issues) == HighRisk <==> TwoCritical(issues)
    ensures GradeHealth(issues) == Healthy <==> !Raises(issues, Critical) && !Raises(issues, Warning)
  {
    CountsTwo(issues);
    CountsAny(issues, Critical);
    CountsAny(issues, Warning);
  }

  // ----- which rules decide the grade -----

  ghost predicate Quiet(issues: seq<Issue>) {
    Problems(issues) == 0
  }

  lemma QuietConcat(a: seq<Issue>, b: seq<Issue>)
    ensures Quiet(a + b) <==> Quiet(a) && Quiet(b)
  {
    CountConcat(a, b, Critical);
    CountConcat(a, b, Warning);
  }

  lemma {:induction false} EachRuleIsQuiet(rules: seq<Rule>, ctx: Context, i: nat)
    requires i < |rules| && Quiet(ApplyAll(rules, ctx))
    ensures Quiet(Apply(rules[i], ctx))
  {
    var n := |rules| - 1;
    QuietConcat(ApplyAll(rules[..n], ctx), Apply(rules[n], ctx));
    if i < n {
      assert rules[..n][i] == rules[i];
      EachRuleIsQuiet(rules[..n], ctx, i);
    }
  }

  lemma {:induction false} AllRulesAreQuiet(rules: seq<Rule>, ctx: Context)
    requires forall rule: Rule :: Quiet(Apply(rule, ctx))
    ensures Quiet(ApplyAll(rules, ctx))
  {
    if rules != [] {
      var n := |rules| - 1;
      AllRulesAreQuiet(rules[..n], ctx);
      QuietConcat(ApplyAll(rules[..n], ctx), Apply(rules[n], ctx));
    }
  }

  /** A route is healthy exactly when no rule of the engine, whichever it is, reports a warning or worse. */
  lemma HealthyIffEveryRuleIsQuiet(route: Route, trip: Trip, km: Distance)
    ensures GradeHealth(Issues(route, trip, km)) == Healthy <==>
            forall rule: Rule :: Quiet(Apply(rule, Context(route, trip, ComputeTravelLoad(route, km))))
  {
    var ctx := Context(route, trip, ComputeTravelLoad(route, km));
    if Quiet(ApplyAll(REGISTRY, ctx)) {
      forall rule: Rule
        ensures Quiet(Apply(rule, ctx))
      {
        EachRuleIsQuiet(REGISTRY, ctx, RegistryIndex(rule));
      }
    } else if forall rule: Rule :: Quiet(Apply(rule, ctx)) {
      AllRulesAreQuiet(REGISTRY, ctx);
    }
  }

  function RegistryIndex(rule: Rule): (i: nat)
    ensures i < |REGISTRY| && REGISTRY[i] == rule
  {
    match rule
    case TravelBurden => 0
    case AccommodationChurn => 1
    case Backtracking => 2
    case DepartureRisk => 3
    case CarRequired => 4
    case LastConnection => 5
    case TransitShare => 6
    case PaceMismatch => 7
    case LuggageRisk => 8
    case EfficientSegments => 9
    case GoodStayLength => 10
  }

  // ----- thresholds in whole minutes -----

  /** Rounding durations to hundredths of an hour never moves a threshold that is itself a whole hundredth. */
  lemma RoundedHoursThreshold(minutes: nat, limit: nat)
    requires limit > 0 && OnGrid(HoursOf(limit), 100)
    ensures Round(HoursOf(minutes), 100) >= HoursOf(limit) <==> minutes >= limit
    ensures Round(HoursOf(minutes), 100) > HoursOf(limit) <==> minutes > limit
  {
    RoundExact(HoursOf(limit), 100);
    RoundIsClose(HoursOf(limit - 1), 100);
    RoundIsClose(HoursOf(limit + 1), 100);
    if minutes >= limit {
      RoundMonotone(HoursOf(limit), HoursOf(minutes), 100);
    } else {
      RoundMonotone(HoursOf(minutes), HoursOf(limit - 1), 100);
    }
    if minutes > limit {
      RoundMonotone(HoursOf(limit + 1), HoursOf(minutes), 100);
    } else {
      RoundMonotone(HoursOf(minutes), HoursOf(limit), 100);
    }
  }

  /**
   What the travel-burden rule comes to in raw minutes: for a single night the limits are three and
   four hours, for longer stays one minute over ten hours per further night.
   */
  lemma BurdenInMinutes(minutes: nat, nights: nat)
    ensures BurdenSeverity(Round(HoursOf(minutes), 100), nights) ==
            if nights == 0 then None
            else if nights == 1 then
              if minutes >= 240 then Some(Critical) else if minutes >= 180 then Some(Warning) else None
            else if minutes > 600 * (nights - 1) then Some(Warning) else None
  {
    var hours := Round(HoursOf(minutes), 100);
    if nights == 1 {
      RoundedHoursThreshold(minutes, 180);
      RoundedHoursThreshold(minutes, 240);
      RoundedHoursThreshold(minutes, 270);
    } else if nights > 1 {
      FurtherNights(minutes, nights);
    }
  }

  lemma FurtherNights(minutes: nat, nights: nat)
    requires nights > 1
    ensures var hours := Round(HoursOf(minutes), 100);
            Max(0.0, 9.0 - hours) + (nights - 1) as real * 10.0 < hours <==> minutes > 600 * (nights - 1)
  {
    var limit := 600 * (nights - 1);
    TenHoursANight(nights - 1);
    RoundedHoursThreshold(minutes, limit);
    LeftOfTheDay(Round(HoursOf(minutes), 100), HoursOf(limit));
  }

  lemma TenHoursANight(n: nat)
    ensures HoursOf(600 * n) == n as real * 10.0 && OnGrid(HoursOf(600 * n), 100)
  {
    assert HoursOf(600 * n) * 100.0 == (1000 * n) as real;
  }

  /** What is left of the day of arrival never decides: ten hours or more are usable anyway. */
  lemma LeftOfTheDay(hours: real, further: real)
    requires further >= 10.0
    ensures Max(0.0, 9.0 - hours) + further < hours <==> further < hours
  {
  }

  /** Likewise the departure rule: five hours for a warning, six and a half for a critical issue. */
  lemma DepartureInMinutes(route: Route)
    requires route.segments != [] && route.departureCity.Some? && route.departureCity.value != ""
    ensures var minutes := route.segments[|route.segments| - 1].minutes;
            DepartureSeverity(route) == if minutes >= 390 then Some(Critical) else if minutes >= 300 then Some(Warning) else None
  {
    var minutes := route.segments[|route.segments| - 1].minutes;
    RoundedHoursThreshold(minutes, 300);
    RoundedHoursThreshold(minutes, 390);
  }
}
