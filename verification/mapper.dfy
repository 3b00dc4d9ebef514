/** The mapping from the engine's records to the transfer objects handed to
    the web layer. Transfer objects are plain records; a field the mapper
    never sets keeps its default (`None` for references, 0 for numbers). */
module Mapper {

  import opened Wrappers
  import opened Model
  import Engine

  /** The part of a transit segment the web layer sees. */
  datatype TransitSegmentDTO = TransitSegmentDTO(
    lineName: Option<string>,
    vehicle: Option<string>,
    departureStop: Option<string>,
    arrivalStop: Option<string>,
    headsign: Option<string>,
    numStops: int)

  datatype RouteLegDTO = RouteLegDTO(
    mode: Option<string>,
    fromName: Option<string>,
    toName: Option<string>,
    durationSeconds: int,
    distanceMeters: int,
    polyline: Option<string>,
    steps: Option<seq<string>>,
    fareText: Option<string>,
    transitSegments: Option<seq<TransitSegmentDTO>>)

  datatype RouteVariantDTO = RouteVariantDTO(
    id: Option<string>,
    summaryText: Option<string>,
    totalDurationSeconds: int,
    totalDistanceMeters: real,
    totalCostRs: real,
    legs: Option<seq<RouteLegDTO>>)

  /** `new RouteLegDTO()`: nothing set. */
  function EmptyLegDTO(): (d: RouteLegDTO)
    ensures d.mode.None? && d.fromName.None? && d.toName.None? && d.polyline.None?
    ensures d.steps.None? && d.fareText.None? && d.transitSegments.None?
    ensures d.durationSeconds == 0 && d.distanceMeters == 0
  {
    RouteLegDTO(None, None, None, 0, 0, None, None, None, None)
  }

  /** One segment: line name, vehicle, both stops, headsign and stop count
      are carried over; the rest of the segment is dropped. */
  function ToSegmentDTO(s: TransitSegment): (d: TransitSegmentDTO)
    ensures d.lineName == s.lineName && d.vehicle == s.vehicle
    ensures d.departureStop == s.departureStop && d.arrivalStop == s.arrivalStop
    ensures d.headsign == s.headsign && d.numStops == s.numStops
  {
    TransitSegmentDTO(s.lineName, s.vehicle, s.departureStop, s.arrivalStop, s.headsign, s.numStops)
  }

  /** The segment loop: one transfer object per segment, in order. */
  function ToSegmentDTOs(segs: seq<TransitSegment>): (r: seq<TransitSegmentDTO>)
    ensures |r| == |segs|
    ensures forall i :: 0 <= i < |segs| ==> r[i] == ToSegmentDTO(segs[i])
  {
    if |segs| == 0 then []
    else [ToSegmentDTO(segs[0])] + ToSegmentDTOs(segs[1..])
  }

  /** `toLegDTO`: a null leg gives an empty transfer object; otherwise
      mode, names, duration, distance, polyline, steps and fare text are
      copied and the segments are mapped one by one when present. */
  function ToLegDTO(leg: Option<RouteLeg>): (d: RouteLegDTO)
    ensures leg.None? ==> d == EmptyLegDTO()
    ensures leg.Some? ==>
              && d.mode == leg.value.mode && d.fromName == leg.value.fromName && d.toName == leg.value.toName
              && d.durationSeconds == leg.value.durationSeconds && d.distanceMeters == leg.value.distanceMeters
              && d.polyline == leg.value.polyline && d.steps == leg.value.steps && d.fareText == leg.value.fareText
    ensures leg.Some? ==> (d.transitSegments.None? <==> leg.value.transitSegments.None?)
    ensures leg.Some? && leg.value.transitSegments.Some? ==>
              && |d.transitSegments.value| == |leg.value.transitSegments.value|
              && forall i :: 0 <= i < |d.transitSegments.value| ==>
                   d.transitSegments.value[i] == ToSegmentDTO(leg.value.transitSegments.value[i])
  {
    if leg.None? then EmptyLegDTO()
    else
      var l := leg.value;
      RouteLegDTO(l.mode, l.fromName, l.toName, l.durationSeconds, l.distanceMeters, l.polyline, l.steps,
                  l.fareText, if l.transitSegments.Some? then Some(ToSegmentDTOs(l.transitSegments.value)) else None)
  }

  /** The leg loop: one transfer object per entry, in order. */
  function ToLegDTOs(legs: seq<Option<RouteLeg>>): (r: seq<RouteLegDTO>)
    ensures |r| == |legs|
    ensures forall i :: 0 <= i < |legs| ==> r[i] == ToLegDTO(legs[i])
  {
    if |legs| == 0 then []
    else [ToLegDTO(legs[0])] + ToLegDTOs(legs[1..])
  }

  /** `toDTO`: id, summary and the three totals are copied; the leg list is
      always set, empty when the variant's list is null. The legacy slots
      are not looked at. */
  function ToDTO(v: RouteVariant): (d: RouteVariantDTO)
    ensures d.id == v.id && d.summaryText == v.summaryText
    ensures d.totalDurationSeconds == v.totalDurationSeconds
    ensures d.totalDistanceMeters == v.totalDistanceMeters && d.totalCostRs == v.totalCostRs
    ensures d.legs.Some?
    ensures v.legs.None? ==> d.legs.value == []
    ensures v.legs.Some? ==>
              && |d.legs.value| == |v.legs.value|
              && forall i :: 0 <= i < |v.legs.value| ==> d.legs.value[i] == ToLegDTO(v.legs.value[i])
  {
    RouteVariantDTO(v.id, v.summaryText, v.totalDurationSeconds, v.totalDistanceMeters, v.totalCostRs,
                    Some(if v.legs.Some? then ToLegDTOs(v.legs.value) else []))
  }

  /** `toDTOList`: null gives an empty list; otherwise one transfer object
      per variant, in order. */
  function ToDTOList(variants: Option<seq<RouteVariant>>): (r: seq<RouteVariantDTO>)
    ensures variants.None? ==> r == []
    ensures variants.Some? ==>
              && |r| == |variants.value|
              && forall i :: 0 <= i < |r| ==> r[i] == ToDTO(variants.value[i])
  {
    if variants.None? then [] else ToDTOs(variants.value)
  }

  function ToDTOs(variants: seq<RouteVariant>): (r: seq<RouteVariantDTO>)
    ensures |r| == |variants|
    ensures forall i :: 0 <= i < |r| ==> r[i] == ToDTO(variants[i])
  {
    if |variants| == 0 then []
    else [ToDTO(variants[0])] + ToDTOs(variants[1..])
  }

  /** What of a segment survives the mapping: the other fields cleared. */
  function SegmentShown(s: TransitSegment): TransitSegment {
    TransitSegment(s.lineName, None, s.vehicle, None, None, s.departureStop, s.arrivalStop, None, None,
                   s.headsign, s.numStops, None, None, None, None)
  }

  function SegmentsShown(segs: seq<TransitSegment>): seq<TransitSegment> {
    if |segs| == 0 then [] else [SegmentShown(segs[0])] + SegmentsShown(segs[1..])
  }

  /** What of a leg survives the mapping: id and coordinates cleared, the
      segments cut down to what they show. */
  function LegShown(l: RouteLeg): RouteLeg {
    RouteLeg(None, l.mode, l.fromName, l.toName, Coordinate(0.0, 0.0), Coordinate(0.0, 0.0),
             l.distanceMeters, l.durationSeconds, l.polyline, l.steps, l.fareText,
             if l.transitSegments.Some? then Some(SegmentsShown(l.transitSegments.value)) else None)
  }

  /** Reading a segment back from its transfer object. */
  function FromSegmentDTO(d: TransitSegmentDTO): TransitSegment {
    TransitSegment(d.lineName, None, d.vehicle, None, None, d.departureStop, d.arrivalStop, None, None,
                   d.headsign, d.numStops, None, None, None, None)
  }

  function FromSegmentDTOs(ds: seq<TransitSegmentDTO>): seq<TransitSegment> {
    if |ds| == 0 then [] else [FromSegmentDTO(ds[0])] + FromSegmentDTOs(ds[1..])
  }

  /** Reading a leg back from its transfer object. */
  function FromLegDTO(d: RouteLegDTO): RouteLeg {
    RouteLeg(None, d.mode, d.fromName, d.toName, Coordinate(0.0, 0.0), Coordinate(0.0, 0.0),
             d.distanceMeters, d.durationSeconds, d.polyline, d.steps, d.fareText,
             if d.transitSegments.Some? then Some(FromSegmentDTOs(d.transitSegments.value)) else None)
  }

  /** Reading mapped segments back gives their shown parts, in order. */
  lemma {:induction false} SegmentsRoundTrip(segs: seq<TransitSegment>)
    ensures FromSegmentDTOs(ToSegmentDTOs(segs)) == SegmentsShown(segs)
  {
    if |segs| > 0 {
      SegmentsRoundTrip(segs[1..]);
      var ds := ToSegmentDTOs(segs);
      assert ds == [ToSegmentDTO(segs[0])] + ToSegmentDTOs(segs[1..]);
      assert ds[1..] == ToSegmentDTOs(segs[1..]);
    }
  }

  /** Round trip: reading a mapped leg back gives exactly the part of the
      leg the mapping shows, so nothing shown is altered or reordered. */
  lemma LegRoundTrip(l: RouteLeg)
    ensures FromLegDTO(ToLegDTO(Some(l))) == LegShown(l)
  {
    if l.transitSegments.Some? {
      SegmentsRoundTrip(l.transitSegments.value);
    }
  }

  /** The legs of a mapped variant read back as the shown part of its legs,
      in order; null legs come back as the empty leg. */
  lemma VariantLegsRoundTrip(v: RouteVariant, i: nat)
    requires v.legs.Some? && i < |v.legs.value|
    ensures v.legs.value[i].Some? ==> FromLegDTO(ToDTO(v).legs.value[i]) == LegShown(v.legs.value[i].value)
    ensures v.legs.value[i].None? ==> ToDTO(v).legs.value[i] == EmptyLegDTO()
  {
    if v.legs.value[i].Some? {
      LegRoundTrip(v.legs.value[i].value);
    }
  }

  /** A variant the engine emits reaches the web layer with three legs whose
      durations and distances add up to the variant's totals. */
  lemma EmittedVariantDTO(v: RouteVariant, ratePerKm: real)
    requires Engine.Emitted(v, ratePerKm)
    ensures var d := ToDTO(v);
            && |d.legs.value| == 3
            && d.totalDurationSeconds
               == d.legs.value[0].durationSeconds + d.legs.value[1].durationSeconds + d.legs.value[2].durationSeconds
            && d.totalDistanceMeters
               == (d.legs.value[0].distanceMeters + d.legs.value[1].distanceMeters + d.legs.value[2].distanceMeters) as real
            && d.legs.value[1].fareText == v.legs.value[1].value.fareText
  {
  }
}
