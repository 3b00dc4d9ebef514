/** The nearest-station finder: filter the places provider's candidates,
    tag each with its distance from the query point, sort ascending (stably)
    and keep the first `top`. */
module Nearest {

  import opened Wrappers
  import opened Text
  import opened Model
  import opened Ordering

  /** A JSON number as `optDouble(…, NaN)` reads it: NaN when the field is
      missing or not numeric. */
  datatype RawNumber = NaN | Num(value: real)

  datatype RawLocation = RawLocation(lat: RawNumber, lng: RawNumber)

  datatype RawGeometry = RawGeometry(location: Option<RawLocation>)

  /** One element of the `results` array: either not a JSON object, or an
      object whose optional fields have been read with `optString` /
      `optJSONObject`. */
  datatype RawPlace =
    | NotAnObject
    | Place(name: Option<string>, placeId: Option<string>, vicinity: Option<string>,
            geometry: Option<RawGeometry>)

  /** What the nearby-search request produced. `NoBody` is a null or empty
      body; `Unparseable` is a non-empty body that is not a JSON object;
      `Json` carries `optString("status")` (absent when missing) and
      `optJSONArray("results")` (absent when missing or not an array). */
  datatype PlacesReply =
    | FetchFailed
    | NoBody
    | Unparseable
    | Json(status: Option<string>, results: Option<seq<RawPlace>>)

  /** The exceptions the finder lets escape to its caller. */
  datatype LookupError = MalformedBody | ResultNotAnObject

  /** The search-radius constant of the nearby search. */
  const SearchRadiusMeters: nat := 15000

  /** `status` is "OK" or "ZERO_RESULTS", ignoring case; a missing status
      reads as the empty string. */
  predicate StatusAccepted(status: Option<string>): (b: bool)
    ensures status.None? ==> !b
    ensures b <==> status.Some? && (ToLower(status.value) == "ok" || ToLower(status.value) == "zero_results")
    ensures b ==> |status.value| == 2 || |status.value| == 12
  {
    LowerStatusLiterals();
    var s := status.GetOr("");
    EqualsIgnoreCase(s, "OK") || EqualsIgnoreCase(s, "ZERO_RESULTS")
  }

  /** The two accepted statuses in lower case. */
  lemma LowerStatusLiterals()
    ensures ToLower("OK") == "ok" && ToLower("ZERO_RESULTS") == "zero_results"
  {
    ToLowerPointwise("OK", "ok");
    ToLowerPointwise("ZERO_RESULTS", "zero_results");
  }

  /** A candidate is kept when it has a geometry with a location whose
      latitude and longitude are both numbers; its name may be null. */
  predicate Usable(p: RawPlace) {
    && p.Place?
    && p.geometry.Some?
    && p.geometry.value.location.Some?
    && p.geometry.value.location.value.lat.Num?
    && p.geometry.value.location.value.lng.Num?
  }

  /** The station built from a usable candidate; `dist` is the rounded
      great-circle distance in metres. */
  function ToStation(p: RawPlace, query: Coordinate, dist: (Coordinate, Coordinate) -> nat): (s: NearbyStation)
    requires Usable(p)
    ensures s.name == p.name && s.placeId == p.placeId && s.vicinity == p.vicinity
    ensures s.lat == p.geometry.value.location.value.lat.value
    ensures s.lng == p.geometry.value.location.value.lng.value
    ensures s.distanceMeters == dist(query, s.Position())
  {
    var loc := p.geometry.value.location.value;
    var here := Coordinate(loc.lat.value, loc.lng.value);
    NearbyStation(p.name, p.placeId, p.vicinity, here.lat, here.lng, dist(query, here))
  }

  /** The stations of the usable candidates, in the provider's order. */
  function Candidates(results: seq<RawPlace>, query: Coordinate, dist: (Coordinate, Coordinate) -> nat): (r: seq<NearbyStation>)
  {
    var usable := UsableOnly(results);
    seq(|usable|, i requires 0 <= i < |usable| => ToStation(usable[i], query, dist))
  }

  /** The usable candidates, in the provider's order. */
  function UsableOnly(results: seq<RawPlace>): (r: seq<RawPlace>)
    ensures forall i :: 0 <= i < |r| ==> Usable(r[i])
  {
    if |results| == 0 then []
    else (if Usable(results[0]) then [results[0]] else []) + UsableOnly(results[1..])
  }

  /** A candidate is skipped exactly when it is unusable; a null name does
      not matter. */
  lemma {:induction false} UsableOnlyMembers(results: seq<RawPlace>, p: RawPlace)
    ensures p in UsableOnly(results) <==> p in results && Usable(p)
  {
    if |results| > 0 {
      UsableOnlyMembers(results[1..], p);
      assert results == [results[0]] + results[1..];
    }
  }

  /** Without unusable candidates nothing is skipped. */
  lemma {:induction false} UsableOnlyAllUsable(results: seq<RawPlace>)
    requires forall i :: 0 <= i < |results| ==> Usable(results[i])
    ensures UsableOnly(results) == results
  {
    if |results| > 0 {
      UsableOnlyAllUsable(results[1..]);
      assert results == [results[0]] + results[1..];
    }
  }

  /** The sort key: distance only (`comparingInt(getDistanceMeters)`). */
  function ByDistance(s: NearbyStation): Key {
    Key(s.distanceMeters, 0.0)
  }

  /** Some element of the results array is not an object: `getJSONObject`
      throws while the loop reaches it. */
  predicate HasNonObject(results: seq<RawPlace>) {
    exists i :: 0 <= i < |results| && results[i].NotAnObject?
  }

  /** `findNearestStations(lat, lng, top)`. The places request is the
      function `places`; a reply the source degrades to "no stations" gives
      `Success([])`, while the two uncaught exceptions give `Failure`. */
  function FindNearestStations(places: Coordinate -> PlacesReply,
                               dist: (Coordinate, Coordinate) -> nat,
                               query: Coordinate, top: nat): (r: Result<seq<NearbyStation>, LookupError>)
    ensures r.Failure? <==>
              || places(query).Unparseable?
              || (places(query).Json? && StatusAccepted(places(query).status)
                  && places(query).results.Some? && HasNonObject(places(query).results.value))
    ensures r.Success? ==> |r.value| <= top
  {
    match places(query)
    case FetchFailed => Success([])
    case NoBody => Success([])
    case Unparseable => Failure(MalformedBody)
    case Json(status, results) =>
      if !StatusAccepted(status) then Success([])
      else if results.None? || |results.value| == 0 then Success([])
      else if HasNonObject(results.value) then Failure(ResultNotAnObject)
      else Success(Take(SortBy(Candidates(results.value, query, dist), ByDistance), top))
  }

  /** Every way the lookup can degrade yields no stations: a failed request,
      an empty body, a status other than OK / ZERO_RESULTS, a missing or
      empty results array. */
  lemma DegradesToEmpty(places: Coordinate -> PlacesReply, dist: (Coordinate, Coordinate) -> nat,
                        query: Coordinate, top: nat)
    requires || places(query).FetchFailed?
             || places(query).NoBody?
             || (places(query).Json? && !StatusAccepted(places(query).status))
             || (places(query).Json? && (places(query).results.None? || |places(query).results.value| == 0))
    ensures FindNearestStations(places, dist, query, top) == Success([])
  {
  }

  /** The stations returned are exactly the first `min(top, n)` of the
      stable sort of the usable candidates: ascending by distance, equal
      distances in provider order, no station invented or repeated, and all
      of them whenever there are at most `top`. */
  lemma NearestIsSortedPrefix(places: Coordinate -> PlacesReply, dist: (Coordinate, Coordinate) -> nat,
                              query: Coordinate, top: nat)
    requires places(query).Json? && StatusAccepted(places(query).status)
    requires places(query).results.Some? && !HasNonObject(places(query).results.value)
    ensures var r := FindNearestStations(places, dist, query, top);
            var cands := Candidates(places(query).results.value, query, dist);
            && r.Success?
            && |r.value| == (if |cands| <= top then |cands| else top)
            && Sorted(r.value, ByDistance)
            && multiset(r.value) <= multiset(cands)
            && forall sorted :: IsStableSortOf(sorted, cands, ByDistance) ==> r.value == sorted[..|r.value|]
  {
    var cands := Candidates(places(query).results.value, query, dist);
    var sorted := SortBy(cands, ByDistance);
    var r := Take(sorted, top);
    PrefixSorted(sorted, |r|, ByDistance);
    TakeSubMultiset(sorted, top);
    forall other | IsStableSortOf(other, cands, ByDistance)
      ensures r == other[..|r|]
    {
      StableSortIsSortBy(other, cands, ByDistance);
    }
  }

  /** Each returned station is a usable candidate with its name, place id,
      vicinity and coordinates copied and its distance from the query
      point filled in. */
  lemma NearestStationsComeFromCandidates(places: Coordinate -> PlacesReply, dist: (Coordinate, Coordinate) -> nat,
                                          query: Coordinate, top: nat, s: NearbyStation)
    requires FindNearestStations(places, dist, query, top).Success?
    requires s in FindNearestStations(places, dist, query, top).value
    ensures places(query).Json? && places(query).results.Some?
    ensures exists p :: p in places(query).results.value && Usable(p) && s == ToStation(p, query, dist)
  {
    var results := places(query).results.value;
    var cands := Candidates(results, query, dist);
    var sorted := SortBy(cands, ByDistance);
    var r := Take(sorted, top);
    assert s in multiset(sorted);
    assert s in cands;
    var i :| 0 <= i < |cands| && cands[i] == s;
    var p := UsableOnly(results)[i];
    UsableOnlyMembers(results, p);
  }


  /** The two replies that make the lookup throw instead of degrading:
      a body that is not JSON, and a results array holding a non-object. */
  lemma MalformedReplyEscapes(places: Coordinate -> PlacesReply, dist: (Coordinate, Coordinate) -> nat,
                              query: Coordinate, top: nat)
    ensures places(query) == Unparseable ==> FindNearestStations(places, dist, query, top) == Failure(MalformedBody)
    ensures places(query) == Json(Some("OK"), Some([NotAnObject]))
            ==> FindNearestStations(places, dist, query, top) == Failure(ResultNotAnObject)
  {
    var reply := places(query);
    if reply == Json(Some("OK"), Some([NotAnObject])) {
      OkIsAccepted();
      assert [NotAnObject][0].NotAnObject?;
      assert HasNonObject(reply.results.value);
    }
  }

  lemma OkIsAccepted()
    ensures StatusAccepted(Some("OK"))
  {
    assert EqualsIgnoreCase("OK", "OK");
  }

  /** The lookup that degrades to no stations on every malformed reply: a
      body that is not a JSON object gives no stations, and an element that
      is not an object is skipped like any other unusable candidate. */
  function FindNearestStationsDegrading(places: Coordinate -> PlacesReply,
                                        dist: (Coordinate, Coordinate) -> nat,
                                        query: Coordinate, top: nat): (r: seq<NearbyStation>)
    ensures |r| <= top
    ensures !places(query).Json? ==> r == []
  {
    match places(query)
    case Json(status, results) =>
      if !StatusAccepted(status) || results.None? || |results.value| == 0 then []
      else Take(SortBy(Candidates(results.value, query, dist), ByDistance), top)
    case _ => []
  }

  /** Wherever the original lookup succeeds, the degrading one returns the
      same stations. */
  lemma DegradingAgrees(places: Coordinate -> PlacesReply, dist: (Coordinate, Coordinate) -> nat,
                        query: Coordinate, top: nat)
    ensures FindNearestStations(places, dist, query, top).Success? ==>
              FindNearestStationsDegrading(places, dist, query, top) == FindNearestStations(places, dist, query, top).value
  {
    match places(query)
    case Json(status, results) =>
    case _ =>
  }

  /** The degrading lookup returns the first stations of the stable sort of
      the usable candidates even when some elements are not objects. */
  lemma DegradingSkipsNonObjects(places: Coordinate -> PlacesReply, dist: (Coordinate, Coordinate) -> nat,
                                 query: Coordinate, top: nat)
    requires places(query).Json? && StatusAccepted(places(query).status) && places(query).results.Some?
    ensures var r := FindNearestStationsDegrading(places, dist, query, top);
            var cands := Candidates(places(query).results.value, query, dist);
            && |r| == (if |cands| <= top then |cands| else top)
            && Sorted(r, ByDistance)
            && forall sorted :: IsStableSortOf(sorted, cands, ByDistance) ==> |r| <= |sorted| && r == sorted[..|r|]
  {
    var cands := Candidates(places(query).results.value, query, dist);
    var sorted := SortBy(cands, ByDistance);
    var r := FindNearestStationsDegrading(places, dist, query, top);
    if |places(query).results.value| == 0 {
      assert |UsableOnly(places(query).results.value)| == 0;
    } else {
      PrefixSorted(sorted, |r|, ByDistance);
      forall other | IsStableSortOf(other, cands, ByDistance)
        ensures r == other[..|r|]
      {
        StableSortIsSortBy(other, cands, ByDistance);
      }
    }
  }
}
