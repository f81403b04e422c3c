/** The region fit rubric (`backend/src/jst_api/domain/scoring.py`) over exact arithmetic. */
module Scoring {
  import opened Wrappers
  import opened Enums
  import opened Sorting
  import opened Subsequences
  import opened Rounding
  import Route

  /** A gateway by its case-folded name, and the hours one way from it. */
  datatype Gateway = Gateway(name: string, hours: real)

  /** Dictionaries are association lists in insertion order; texts are already case-folded. */
  datatype Region = Region(
    code: string,
    names: set<string>,
    gateways: seq<Gateway>,
    minNights: nat,
    idealNights: nat,
    maxNights: nat,
    publicTransport: real,
    carFreePossible: bool,
    carRecommended: bool,
    interests: seq<(string, real)>,
    months: map<int, real>,
    bookingComplexity: real,
    luggageFriendliness: real,
    stepFree: real,
    overlaps: set<string>)

  /** What a profile promises: a gateway, hours that are not negative, ratings between nought and one. */
  ghost predicate WellFormed(region: Region) {
    && region.gateways != []
    && (forall i :: 0 <= i < |region.gateways| ==> region.gateways[i].hours >= 0.0)
    && Unit(region.publicTransport) && Unit(region.bookingComplexity)
    && Unit(region.luggageFriendliness) && Unit(region.stepFree)
    && (forall i :: 0 <= i < |region.interests| ==> Unit(region.interests[i].1))
    && (forall m :: m in region.months ==> Unit(region.months[m]))
  }

  const ANYWHERE := Region("", {}, [Gateway("", 0.0)], 1, 1, 1, 0.0, true, false, [], map[], 0.4, 0.7, 0.6, {})

  type Profile = region: Region | WellFormed(region) witness ANYWHERE

  predicate Unit(x: real) {
    0.0 <= x <= 1.0
  }

  datatype Driving = NoCar | Willing | PrefersCar | Undecided

  /** A city as the traveller gave it, and stripped and case-folded; what was given may fold to nothing. */
  datatype City = City(text: string, folded: string)

  datatype Trip = Trip(
    regionalNights: Option<nat>,
    totalNights: Option<nat>,
    arrival: Option<City>,
    departure: Option<City>,
    interests: seq<string>,
    month: Option<int>,
    visited: set<string>,
    driving: Option<Driving>,
    pace: Option<Pace>,
    family: bool,
    largeLuggage: bool,
    stepFreeRequired: bool,
    limitedWalking: bool)

  datatype Label = Strong | Good | Marginal | NotRecommended

  datatype Failure = MinNights | CarFreeRequired | TransitShare | StepFree

  datatype Fit = Fit(code: string, score: real, verdict: Label, components: seq<real>, failures: seq<Failure>)

  const MAX_TRANSIT_SHARE := 0.35

  // ----- the trip and the gateways -----

  function EffectiveNights(trip: Trip): nat {
    match trip.regionalNights
    case Some(n) => if n > 0 then n else Allowance(trip.totalNights)
    case None => Allowance(trip.totalNights)
  }

  function Allowance(total: Option<nat>): nat {
    if total.None? || total.value == 0 then 3
    else if total.value / 3 < 2 then 2
    else if total.value / 3 > 7 then 7
    else total.value / 3
  }

  predicate Contains(text: string, part: string) {
    part <= text || (text != "" && Contains(text[1..], part))
  }

  /** The first gateway whose name equals, contains or is contained in the folded name of the city, if one is given. */
  function AccessFrom(gateways: seq<Gateway>, city: Option<City>): Option<Gateway> {
    if city.None? || city.value.text == "" || gateways == [] then None
    else if Contains(gateways[0].name, city.value.folded) || Contains(city.value.folded, gateways[0].name) then Some(gateways[0])
    else AccessFrom(gateways[1..], city)
  }

  function BestGateway(gateways: seq<Gateway>): (g: Gateway)
    requires gateways != []
    ensures g in gateways && forall i :: 0 <= i < |gateways| ==> g.hours <= gateways[i].hours
  {
    if |gateways| == 1 then gateways[0] else
    var rest := BestGateway(gateways[1..]);
    if gateways[0].hours <= rest.hours then gateways[0] else rest
  }

  function Or(access: Option<Gateway>, otherwise: Gateway): Gateway {
    if access.Some? then access.value else otherwise
  }

  function Inbound(region: Profile, trip: Trip): Gateway
  {
    Or(AccessFrom(region.gateways, trip.arrival), BestGateway(region.gateways))
  }

  function Outbound(region: Profile, trip: Trip): Gateway
  {
    Or(AccessFrom(region.gateways, trip.departure), Inbound(region, trip))
  }

  // ----- hard constraints -----

  function Tolerance(pace: Option<Pace>): real {
    match pace
    case Some(Relaxed) => 0.8
    case Some(Fast) => 1.25
    case _ => 1.0
  }

  predicate TransitAcceptable(hours: real, nights: nat, pace: Option<Pace>)
    requires hours >= 0.0
  {
    Route.Share(2.0 * hours, nights) <= MAX_TRANSIT_SHARE * Tolerance(pace)
  }

  function HardFailures(region: Profile, trip: Trip): seq<Failure>
  {
    var nights := EffectiveNights(trip);
    (if nights >= region.minNights then [] else [MinNights]) +
    (if trip.driving != Some(NoCar) || region.carFreePossible then [] else [CarFreeRequired]) +
    (InboundIsGateway(region, trip);
     if TransitAcceptable(Inbound(region, trip).hours, nights, trip.pace) then [] else [TransitShare]) +
    (if !trip.stepFreeRequired || region.stepFree >= 0.5 then [] else [StepFree])
  }

  // ----- components -----

  function Clamp(x: real): (r: real)
    ensures Unit(r)
  {
    if x < 0.0 then 0.0 else if x > 1.0 then 1.0 else x
  }

  function Score(x: real): real {
    Round(Clamp(x), 10000)
  }

  function Ratio(a: int, b: int): real {
    a as real / (if b > 1 then b else 1) as real
  }

  function RawNightsFit(minNights: nat, idealNights: nat, maxNights: nat, nights: nat): real {
    if nights < minNights then Ratio(nights, minNights) * 0.5
    else if nights <= idealNights then 0.7 + 0.3 * Ratio(nights - minNights, idealNights - minNights)
    else if nights <= maxNights then 1.0 - 0.25 * Ratio(nights - idealNights, maxNights - idealNights)
    else 0.6
  }

  function NightsFit(region: Profile, nights: nat): real {
    Score(RawNightsFit(region.minNights, region.idealNights, region.maxNights, nights))
  }

  /** A tenth of the leg in transit is worth 1, forty-five hundredths nothing. */
  function AccessEfficiency(hours: real, nights: nat): real
    requires hours >= 0.0
  {
    Score((0.45 - Route.Share(hours, nights)) / 0.35)
  }

  function RawTransport(pts: real, carRecommended: bool, luggageFriendliness: real, trip: Trip): real {
    var value :=
      match trip.driving
      case Some(NoCar) => pts
      case Some(Willing) | Some(PrefersCar) =>
        var floor := if carRecommended then 0.85 else 0.75;
        if pts > floor then pts else floor
      case _ => 0.5 + pts * 0.5;
    if trip.largeLuggage then value * (0.85 + 0.15 * luggageFriendliness) else value
  }

  function TransportCompatibility(region: Profile, trip: Trip): real {
    Score(RawTransport(region.publicTransport, region.carRecommended, region.luggageFriendliness, trip))
  }

  function Strength(strengths: seq<(string, real)>, interest: string): real {
    if strengths == [] then 0.25
    else if strengths[0].0 == interest then strengths[0].1
    else Strength(strengths[1..], interest)
  }

  function Sum(xs: seq<real>): real {
    if xs == [] then 0.0 else xs[0] + Sum(xs[1..])
  }

  function Mean(xs: seq<real>): real
    requires xs != []
  {
    Sum(xs) / |xs| as real
  }

  function Values(strengths: seq<(string, real)>): seq<real> {
    seq(|strengths|, i requires 0 <= i < |strengths| => strengths[i].1)
  }

  /** The average and the worst match of what was asked for, or the region's three strongest themes. */
  function InterestMatch(region: Profile, interests: seq<string>): real {
    if interests == [] then
      var top := Take(Sort(Descending, Values(region.interests)), 3);
      Round(if top == [] then 0.6 else Mean(top), 10000)
    else
      var scores := seq(|interests|, i requires 0 <= i < |interests| => Strength(region.interests, interests[i]));
      SortMultiset(Descending, scores);
      Round(0.7 * Mean(scores) + 0.3 * Sort(Descending, scores)[|scores| - 1], 10000)
  }

  function SeasonFit(region: Profile, trip: Trip): real {
    Round(if trip.month.None? then 0.7
          else if trip.month.value in region.months then region.months[trip.month.value] else 0.6, 10000)
  }

  function Novelty(region: Profile, trip: Trip): real {
    if trip.visited == {} then 0.8
    else if region.names * trip.visited != {} then 0.15
    else
      var value := 1.0 - 0.25 * |region.overlaps * trip.visited| as real;
      Round(if value > 0.3 then value else 0.3, 10000)
  }

  function RawPracticality(bookingComplexity: real, luggageFriendliness: real, stepFree: real, trip: Trip): real {
    var open := 1.0 - bookingComplexity;
    var packed := if trip.family then open * (0.8 + 0.2 * luggageFriendliness) else open;
    if trip.limitedWalking then packed * (0.6 + 0.4 * stepFree) else packed
  }

  function Practicality(region: Profile, trip: Trip): real {
    Score(RawPracticality(region.bookingComplexity, region.luggageFriendliness, region.stepFree, trip))
  }

  // ----- the score -----

  function AccessScore(region: Profile, trip: Trip): real {
    InboundIsGateway(region, trip);
    AccessEfficiency(Inbound(region, trip).hours + Outbound(region, trip).hours, EffectiveNights(trip))
  }

  function Components(region: Profile, trip: Trip): (c: seq<real>)
    ensures |c| == 7
  {
    [NightsFit(region, EffectiveNights(trip)),
     AccessScore(region, trip),
     TransportCompatibility(region, trip),
     InterestMatch(region, trip.interests),
     SeasonFit(region, trip),
     Novelty(region, trip),
     Practicality(region, trip)]
  }

  function Weighted(c: seq<real>): real
    requires |c| == 7
  {
    100.0 * (0.24 * c[0] + 0.22 * c[1] + 0.16 * c[2] + 0.16 * c[3] + 0.12 * c[4] + 0.06 * c[5] + 0.04 * c[6])
  }

  function LabelFor(score: real): Label {
    if score >= 72.0 then Strong else if score >= 58.0 then Good else if score >= 42.0 then Marginal else NotRecommended
  }

  function Capped(raw: real, failed: bool): real {
    if failed && raw > 38.0 then 38.0 else raw
  }

  function ScoreRegion(region: Profile, trip: Trip): Fit
  {
    var failures := HardFailures(region, trip);
    var components := Components(region, trip);
    var raw := Weighted(components);
    var score := Capped(raw, failures != []);
    Fit(region.code, Round(score, 100), if failures != [] then NotRecommended else LabelFor(score), components, failures)
  }

  /** Highest score first, then code. */
  predicate Ahead(a: Fit, b: Fit) {
    a.score > b.score || (a.score == b.score && Alphabetical(a.code, b.code))
  }

  function Scorer(trip: Trip): Profile -> Fit {
    (region: Profile) => ScoreRegion(region, trip)
  }

  function Scored(regions: seq<Profile>, trip: Trip): seq<Fit> {
    Map(Scorer(trip), regions)
  }

  function RankRegions(regions: seq<Profile>, trip: Trip): seq<Fit>
  {
    Sort(Ahead, Scored(regions, trip))
  }

  lemma AccessIsGateway(gateways: seq<Gateway>, city: Option<City>)
    ensures AccessFrom(gateways, city).Some? ==> AccessFrom(gateways, city).value in gateways
  {
  }

  lemma InboundIsGateway(region: Profile, trip: Trip)
    ensures Inbound(region, trip).hours >= 0.0 && Outbound(region, trip).hours >= 0.0
  {
    AccessIsGateway(region.gateways, trip.arrival);
    AccessIsGateway(region.gateways, trip.departure);
  }
}
