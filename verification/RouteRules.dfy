/**
 The route-health rules engine (`backend/src/jst_api/domain/route_rules.py`): nine graded rules and
 two positive ones over a route and its travel load, and the grade they add up to.
 */
module RouteRules {
  import opened Wrappers
  import opened Enums
  import opened Subsequences
  import opened Rounding
  import opened Route

  datatype Severity = Critical | Warning | Info | Good

  datatype Health = Healthy | NeedsImprovement | HighRisk

  datatype Trip = Trip(publicTransportOnly: bool, pace: Option<Pace>, largeLuggage: bool)

  datatype Rule = TravelBurden | AccommodationChurn | Backtracking | DepartureRisk | CarRequired | LastConnection
    | TransitShare | PaceMismatch | LuggageRisk | EfficientSegments | GoodStayLength

  datatype Issue = Issue(rule: Rule, severity: Severity)

  datatype Context = Context(route: Route, trip: Trip, load: TravelLoad)

  const REGISTRY: seq<Rule> :=
    [TravelBurden, AccommodationChurn, Backtracking, DepartureRisk, CarRequired, LastConnection,
     TransitShare, PaceMismatch, LuggageRisk, EfficientSegments, GoodStayLength]

  const TRAVEL_DAY_START := 600
  const TIGHT_CONNECTION_MINUTES := 45

  /** `RouteSegment.duration_hours`. */
  function Hours(seg: Segment): real {
    Round(HoursOf(seg.minutes), 100)
  }

  // ----- what each rule makes of its input; None means the rule stays silent -----

  function Max(a: real, b: real): real {
    if a >= b then a else b
  }

  function BurdenSeverity(hours: real, nights: nat): Option<Severity> {
    if nights == 0 then None else
    var usable := Max(0.0, 9.0 - hours) + (nights - 1) as real * 10.0;
    if hours >= 4.0 && nights <= 1 then Some(Critical)
    else if (hours >= 3.0 && nights <= 1) || usable < hours then Some(Warning)
    else None
  }

  function ChurnSeverity(load: TravelLoad): Option<Severity> {
    if load.totalNights == 0 then None else
    var ratio := load.accommodationChanges as real / load.totalNights as real;
    if !(load.oneNightStays > 2 || ratio > 0.6) then None
    else Some(if load.oneNightStays >= 5 then Critical else Warning)
  }

  function BacktrackingSeverity(load: TravelLoad): Option<Severity> {
    if load.detourRatio <= 1.6 then None else Some(Warning)
  }

  function DepartureSeverity(route: Route): Option<Severity> {
    if route.segments == [] || route.departureCity.None? || route.departureCity.value == "" then None else
    var hours := Hours(route.segments[|route.segments| - 1]);
    if hours < 5.0 then None else Some(if hours >= 6.5 then Critical else Warning)
  }

  function CarSeverity(ctx: Context): Option<Severity> {
    if !ctx.trip.publicTransportOnly || !(exists s :: s in ctx.route.segments && s.requiresCar) then None else Some(Critical)
  }

  function ConnectionSeverity(seg: Segment): Option<Severity> {
    if seg.lastDeparture.None? then None else
    var riding := seg.minutes - seg.finalLegMinutes.GetOr(0);
    var margin := seg.lastDeparture.value - (TRAVEL_DAY_START + (if riding > 0 then riding else 0));
    if margin >= TIGHT_CONNECTION_MINUTES then None else Some(if margin < 0 then Critical else Warning)
  }

  function ShareSeverity(load: TravelLoad): Option<Severity> {
    if load.transitShare <= 0.35 then None else Some(if load.transitShare > 0.45 then Critical else Warning)
  }

  function PaceLimit(pace: Pace): real {
    match pace
    case Relaxed => 2.0
    case Balanced => 3.0
    case Fast => 4.5
  }

  function PaceSeverity(trip: Trip, load: TravelLoad): Option<Severity> {
    if trip.pace.None? || load.transitHoursPerNight <= PaceLimit(trip.pace.value) then None else Some(Warning)
  }

  function LuggageSeverity(ctx: Context): Option<Severity> {
    if !ctx.trip.largeLuggage || !(exists s :: s in ctx.route.segments && s.transfers >= 3) then None else Some(Warning)
  }

  function EfficientSeverity(seg: Segment, nights: nat): Option<Severity> {
    if Hours(seg) <= 3.0 && seg.transfers <= 1 && nights >= 1 then Some(Good) else None
  }

  function StaySeverity(stops: seq<Stop>): Option<Severity> {
    if exists s :: s in stops && s.nights >= 3 then Some(Good) else None
  }

  // ----- the engine -----

  function Report(rule: Rule, severity: Option<Severity>): seq<Issue> {
    if severity.None? then [] else [Issue(rule, severity.value)]
  }

  /** One issue for each segment the rule objects to, in travel order. */
  function PerSegment(rule: Rule, judge: Segment -> Option<Severity>, segments: seq<Segment>): seq<Issue> {
    if segments == [] then []
    else PerSegment(rule, judge, segments[..|segments| - 1]) + Report(rule, judge(segments[|segments| - 1]))
  }

  function BurdenJudge(stops: seq<Stop>): Segment -> Option<Severity> {
    (seg: Segment) => BurdenSeverity(Hours(seg), NightsAt(stops, seg.toOrder))
  }

  function EfficientJudge(stops: seq<Stop>): Segment -> Option<Severity> {
    (seg: Segment) => EfficientSeverity(seg, NightsAt(stops, seg.toOrder))
  }

  function Apply(rule: Rule, ctx: Context): seq<Issue> {
    match rule
    case TravelBurden => PerSegment(rule, BurdenJudge(ctx.route.stops), ctx.route.segments)
    case AccommodationChurn => Report(rule, ChurnSeverity(ctx.load))
    case Backtracking => Report(rule, BacktrackingSeverity(ctx.load))
    case DepartureRisk => Report(rule, DepartureSeverity(ctx.route))
    case CarRequired => Report(rule, CarSeverity(ctx))
    case LastConnection => PerSegment(rule, ConnectionSeverity, ctx.route.segments)
    case TransitShare => Report(rule, ShareSeverity(ctx.load))
    case PaceMismatch => Report(rule, PaceSeverity(ctx.trip, ctx.load))
    case LuggageRisk => Report(rule, LuggageSeverity(ctx))
    case EfficientSegments => Take(PerSegment(rule, EfficientJudge(ctx.route.stops), ctx.route.segments), 4)
    case GoodStayLength => Report(rule, StaySeverity(ctx.route.stops))
  }

  function ApplyAll(rules: seq<Rule>, ctx: Context): seq<Issue> {
    if rules == [] then [] else ApplyAll(rules[..|rules| - 1], ctx) + Apply(rules[|rules| - 1], ctx)
  }

  function Count(issues: seq<Issue>, severity: Severity): nat {
    if issues == [] then 0
    else Count(issues[..|issues| - 1], severity) + (if issues[|issues| - 1].severity == severity then 1 else 0)
  }

  function GradeHealth(issues: seq<Issue>): Health {
    var criticals, warnings := Count(issues, Critical), Count(issues, Warning);
    if criticals >= 2 then HighRisk
    else if criticals == 1 || warnings >= 2 then NeedsImprovement
    else if warnings == 1 then NeedsImprovement
    else Healthy
  }

  function Issues(route: Route, trip: Trip, km: Distance): seq<Issue> {
    ApplyAll(REGISTRY, Context(route, trip, ComputeTravelLoad(route, km)))
  }

  /** The shape of `_travel_burden`, `_last_connection` and `_efficient_segments`: a loop that skips or appends. */
  method JudgeSegments(rule: Rule, judge: Segment -> Option<Severity>, segments: seq<Segment>) returns (issues: seq<Issue>)
    ensures issues == PerSegment(rule, judge, segments)
  {
    issues := [];
    for i := 0 to |segments|
      invariant issues == PerSegment(rule, judge, segments[..i])
    {
      assert segments[..i + 1][..i] == segments[..i];
      var severity := judge(segments[i]);
      if severity.None? {
        continue;
      }
      issues := issues + [Issue(rule, severity.value)];
    }
    assert segments[..|segments|] == segments;
  }

  method ApplyRule(rule: Rule, ctx: Context) returns (issues: seq<Issue>)
    ensures issues == Apply(rule, ctx)
  {
    if rule.TravelBurden? {
      issues := JudgeSegments(rule, BurdenJudge(ctx.route.stops), ctx.route.segments);
    } else if rule.LastConnection? {
      issues := JudgeSegments(rule, ConnectionSeverity, ctx.route.segments);
    } else if rule.EfficientSegments? {
      issues := JudgeSegments(rule, EfficientJudge(ctx.route.stops), ctx.route.segments);
      issues := Take(issues, 4);
    } else {
      issues := Apply(rule, ctx);
    }
  }

  method RunRules(route: Route, trip: Trip, km: Distance) returns (issues: seq<Issue>, load: TravelLoad)
    ensures issues == Issues(route, trip, km)
    ensures load == ComputeTravelLoad(route, km)
  {
    load := ComputeTravelLoad(route, km);
    var ctx := Context(route, trip, load);
    issues := [];
    for i := 0 to |REGISTRY|
      invariant issues == ApplyAll(REGISTRY[..i], ctx)
    {
      assert REGISTRY[..i + 1][..i] == REGISTRY[..i];
      var found := ApplyRule(REGISTRY[i], ctx);
      issues := issues + found;
    }
    assert REGISTRY[..|REGISTRY|] == REGISTRY;
  }
}
