/**
 Itineraries and the derived travel load (`backend/src/jst_api/domain/route.py`,
 `backend/src/jst_api/domain/geo.py`). Hours are exact rationals, and the distance between two
 coordinates is a parameter.
 */
module Route {
  import opened Wrappers
  import opened Rounding

  datatype LatLon = LatLon(lat: real, lon: real)

  /** `bed` is the key that tells two accommodations apart: the place slug, or else the lower-cased name. */
  datatype Stop = Stop(order: int, name: string, bed: string, nights: nat, coords: Option<LatLon>)

  /** `lastDeparture` is the parsed last local departure in minutes after midnight; None when absent or unreadable. */
  datatype Segment = Segment(
    fromOrder: int,
    toOrder: int,
    minutes: nat,
    transfers: nat,
    requiresCar: bool,
    isEstimate: bool,
    lastDeparture: Option<int>,
    finalLegMinutes: Option<int>)

  datatype Route = Route(stops: seq<Stop>, segments: seq<Segment>, departureCity: Option<string>)

  datatype TravelLoad = TravelLoad(
    totalNights: nat,
    totalTransitHours: real,
    longestSegmentHours: real,
    accommodationChanges: nat,
    oneNightStays: nat,
    transitHoursPerNight: real,
    transitShare: real,
    detourRatio: real,
    segmentsRequiringCar: nat,
    estimatedSegments: nat,
    isTravelDominated: bool)

  type Distance = (LatLon, LatLon) -> real

  // ----- sums and counts over stops and segments -----

  function TotalNights(stops: seq<Stop>): nat {
    if stops == [] then 0 else stops[0].nights + TotalNights(stops[1..])
  }

  function TotalMinutes(segments: seq<Segment>): nat {
    if segments == [] then 0 else segments[0].minutes + TotalMinutes(segments[1..])
  }

  function LongestMinutes(segments: seq<Segment>): nat {
    if segments == [] then 0 else
    var rest := LongestMinutes(segments[1..]);
    if segments[0].minutes > rest then segments[0].minutes else rest
  }

  function OneNightStays(stops: seq<Stop>): nat {
    if stops == [] then 0 else (if stops[0].nights == 1 then 1 else 0) + OneNightStays(stops[1..])
  }

  function CountCar(segments: seq<Segment>): nat {
    if segments == [] then 0 else (if segments[0].requiresCar then 1 else 0) + CountCar(segments[1..])
  }

  function CountEstimates(segments: seq<Segment>): nat {
    if segments == [] then 0 else (if segments[0].isEstimate then 1 else 0) + CountEstimates(segments[1..])
  }

  lemma {:induction false} TotalsSnoc(stops: seq<Stop>, stop: Stop)
    ensures TotalNights(stops + [stop]) == TotalNights(stops) + stop.nights
    ensures OneNightStays(stops + [stop]) == OneNightStays(stops) + (if stop.nights == 1 then 1 else 0)
  {
    if stops == [] {
      assert (stops + [stop])[1..] == [];
    } else {
      assert (stops + [stop])[1..] == stops[1..] + [stop];
      TotalsSnoc(stops[1..], stop);
    }
  }

  /** The beds slept in, in order. */
  function Beds(stops: seq<Stop>): seq<string> {
    if stops == [] then []
    else if stops[0].nights > 0 then [stops[0].bed] + Beds(stops[1..])
    else Beds(stops[1..])
  }

  /** How often two consecutive beds differ. */
  function Moves(beds: seq<string>): nat {
    if |beds| <= 1 then 0
    else Moves(beds[1..]) + (if beds[0] != beds[1] then 1 else 0)
  }

  lemma {:induction false} MovesSnoc(beds: seq<string>, bed: string)
    ensures Moves(beds + [bed]) == Moves(beds) + (if beds != [] && beds[|beds| - 1] != bed then 1 else 0)
  {
    if |beds| >= 1 {
      assert (beds + [bed])[1..] == beds[1..] + [bed];
      MovesSnoc(beds[1..], bed);
    }
  }

  lemma {:induction false} BedsSnoc(stops: seq<Stop>, stop: Stop)
    ensures Beds(stops + [stop]) == if stop.nights > 0 then Beds(stops) + [stop.bed] else Beds(stops)
  {
    if stops != [] {
      assert (stops + [stop])[1..] == stops[1..] + [stop];
      BedsSnoc(stops[1..], stop);
    } else {
      assert (stops + [stop])[1..] == [];
    }
  }

  /** `Route.accommodation_changes`: one loop counting changes of bed, the first of which is the arrival. */
  method AccommodationChanges(stops: seq<Stop>) returns (moves: nat)
    ensures moves == Moves(Beds(stops))
  {
    var changes := 0;
    var previous: Option<string> := None;
    for i := 0 to |stops|
      invariant previous == (var beds := Beds(stops[..i]); if beds == [] then None else Some(beds[|beds| - 1]))
      invariant changes == (var beds := Beds(stops[..i]); if beds == [] then 0 else Moves(beds) + 1)
    {
      assert stops[..i + 1] == stops[..i] + [stops[i]];
      BedsSnoc(stops[..i], stops[i]);
      MovesSnoc(Beds(stops[..i]), stops[i].bed);
      if stops[i].nights > 0 {
        if previous != Some(stops[i].bed) {
          changes := changes + 1;
        }
        previous := Some(stops[i].bed);
      }
    }
    assert stops[..|stops|] == stops;
    moves := if changes > 1 then changes - 1 else 0;
  }

  /** Nights at the first stop with this order. */
  function NightsAt(stops: seq<Stop>, order: int): nat {
    if stops == [] then 0 else if stops[0].order == order then stops[0].nights else NightsAt(stops[1..], order)
  }

  // ----- shape -----

  function CoordinatePath(stops: seq<Stop>): seq<LatLon> {
    if stops == [] then []
    else if stops[0].coords.Some? then [stops[0].coords.value] + CoordinatePath(stops[1..])
    else CoordinatePath(stops[1..])
  }

  function PathLength(points: seq<LatLon>, km: Distance): real {
    if |points| <= 1 then 0.0 else km(points[0], points[1]) + PathLength(points[1..], km)
  }

  /** A route that ends within 25 km of its start is a loop, not a detour. */
  function DetourRatio(points: seq<LatLon>, km: Distance): real {
    if |points| < 3 then 1.0 else
    var direct := km(points[0], points[|points| - 1]);
    if direct < 25.0 then 1.0 else PathLength(points, km) / direct
  }

  // ----- the load -----

  const TRAVEL_DOMINATED_SHARE := 0.35

  function AtLeastOne(n: nat): nat {
    if n > 1 then n else 1
  }

  function HoursOf(minutes: nat): real {
    minutes as real / 60.0
  }

  function Share(hours: real, nights: nat): real
    requires hours >= 0.0
  {
    hours / (hours + AtLeastOne(nights) as real * 10.0)
  }

  lemma ShareMonotone(hours: real, nights: nat, hours': real, nights': nat)
    requires 0.0 <= hours <= hours' && nights' <= nights
    ensures Share(hours, nights) <= Share(hours', nights')
  {
    var u, u' := AtLeastOne(nights) as real * 10.0, AtLeastOne(nights') as real * 10.0;
    ShareCross(hours, u, hours', u');
    CrossDivide(hours, hours + u, hours', hours' + u');
  }

  lemma ShareCross(h: real, u: real, h': real, u': real)
    requires 0.0 <= h <= h' && 0.0 < u' <= u
    ensures h * (h' + u') <= h' * (h + u)
  {
    var gain, spare := h' - h, u - u';
    assert h' * (h + u) - h * (h' + u') == gain * u + h * spare;
    assert gain * u >= 0.0;
    assert h * spare >= 0.0;
  }

  /** Unrounded transit hours per night, the quantity the traveller feels. */
  function Burden(route: Route): real {
    HoursOf(TotalMinutes(route.segments)) / AtLeastOne(TotalNights(route.stops)) as real
  }

  function ComputeTravelLoad(route: Route, km: Distance): TravelLoad {
    var nights := TotalNights(route.stops);
    var hours := HoursOf(TotalMinutes(route.segments));
    TravelLoad(
      nights,
      Round(hours, 100),
      Round(HoursOf(LongestMinutes(route.segments)), 100),
      Moves(Beds(route.stops)),
      OneNightStays(route.stops),
      Round(Burden(route), 100),
      Round(Share(hours, nights), 10000),
      Round(DetourRatio(CoordinatePath(route.stops), km), 1000),
      CountCar(route.segments),
      CountEstimates(route.segments),
      Share(hours, nights) > TRAVEL_DOMINATED_SHARE)
  }
}
