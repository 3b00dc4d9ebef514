/** The records the route engine works on. Every Java reference field that
    may hold `null` is an `Option`; doubles that only ever carry coordinates
    are exact reals. */
module Model {

  import opened Wrappers

  /** A WGS84 position in degrees. */
  datatype Coordinate = Coordinate(lat: real, lng: real)

  /** One vehicle ride inside a transit leg. */
  datatype TransitSegment = TransitSegment(
    lineName: Option<string>,
    lineShortName: Option<string>,
    vehicle: Option<string>,
    agencyName: Option<string>,
    tripShortName: Option<string>,
    departureStop: Option<string>,
    arrivalStop: Option<string>,
    departureTimeText: Option<string>,
    arrivalTimeText: Option<string>,
    headsign: Option<string>,
    numStops: int,
    stops: Option<seq<string>>,
    stopIds: Option<seq<string>>,
    platform: Option<string>,
    rawPolyline: Option<string>)

  /** One single-mode hop as the directions provider reports it. The mode is
      the request's mode string (`walking`, `driving` or `transit`). */
  datatype RouteLeg = RouteLeg(
    id: Option<string>,
    mode: Option<string>,
    fromName: Option<string>,
    toName: Option<string>,
    from: Coordinate,
    to: Coordinate,
    distanceMeters: int,
    durationSeconds: int,
    polyline: Option<string>,
    steps: Option<seq<string>>,
    fareText: Option<string>,
    transitSegments: Option<seq<TransitSegment>>)

  /** A station found near a query point, tagged with its rounded
      straight-line distance from that point. */
  datatype NearbyStation = NearbyStation(
    name: Option<string>,
    placeId: Option<string>,
    vicinity: Option<string>,
    lat: real,
    lng: real,
    distanceMeters: int)
  {
    function Position(): Coordinate {
      Coordinate(lat, lng)
    }
  }

  /** One journey option. `piece1..3` are the legacy named slots; `legs` is
      the list the engine and the mapper actually use. */
  datatype RouteVariant = RouteVariant(
    piece1: Option<RouteLeg>,
    piece2: Option<RouteLeg>,
    piece3: Option<RouteLeg>,
    id: Option<string>,
    totalDurationSeconds: int,
    totalDistanceMeters: real,
    totalCostRs: real,
    summaryText: Option<string>,
    legs: Option<seq<Option<RouteLeg>>>)
}
