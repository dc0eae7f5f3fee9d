/** Positions, and what the two web services the route planners call come back
    with. The services themselves are not modelled: each request's outcome is
    an input to the operation that issues it. */
module Geo {
  import opened Wrappers

  /** A Leaflet position, `[lat, lng]`. */
  datatype LatLng = LatLng(lat: real, lng: real)

  /** A GeoJSON position, `[lon, lat]`, the order OSRM returns geometry in. */
  datatype LonLat = LonLat(lon: real, lat: real)

  function ToLatLng(p: LonLat): LatLng { LatLng(p.lat, p.lon) }

  function ToLonLat(p: LatLng): LonLat { LonLat(p.lng, p.lat) }

  /** `coords.map(c => [c[1], c[0]])`. */
  function SwapAll(coords: seq<LonLat>): (r: seq<LatLng>)
    ensures |r| == |coords|
    ensures forall i :: 0 <= i < |r| ==> r[i] == ToLatLng(coords[i])
  {
    seq(|coords|, i requires 0 <= i < |coords| => ToLatLng(coords[i]))
  }

  /** The inverse conversion, Leaflet back to GeoJSON order. */
  function UnswapAll(coords: seq<LatLng>): (r: seq<LonLat>)
    ensures |r| == |coords|
    ensures forall i :: 0 <= i < |r| ==> r[i] == ToLonLat(coords[i])
  {
    seq(|coords|, i requires 0 <= i < |coords| => ToLonLat(coords[i]))
  }

  /** Swapping loses nothing: the GeoJSON vertices can be read back, in order. */
  lemma SwapRoundTrip(coords: seq<LonLat>)
    ensures UnswapAll(SwapAll(coords)) == coords
  {
  }

  /** One place as the geocoder describes it: `display_name`, `lat`, `lon`. */
  datatype Candidate = Candidate(name: string, lat: real, lon: real)

  /** The outcome of one Nominatim request: a transport, HTTP or JSON failure,
      or the decoded list of places in the order Nominatim ranked them. */
  datatype GeoReply = GeoFailed | GeoOk(hits: seq<Candidate>)

  /** The outcome of one OSRM request: a transport, HTTP or JSON failure or an
      empty `routes` array, or the first route's vertices and its `distance`
      in metres (absent when the response has none). */
  datatype RouteReply = RouteFailed | RouteFound(coords: seq<LonLat>, distance: Option<real>)

  /** The two end points an OSRM request is issued for, in URL order. */
  datatype RouteRequest = RouteRequest(origin: LonLat, destination: LonLat)

  function RequestFor(o: Candidate, d: Candidate): RouteRequest {
    RouteRequest(LonLat(o.lon, o.lat), LonLat(d.lon, d.lat))
  }

  /** `arr[0]`, or nothing for an empty array. */
  function First(hits: seq<Candidate>): (r: Option<Candidate>)
    ensures r.None? <==> |hits| == 0
    ensures r.Some? ==> r.value == hits[0]
  {
    if |hits| == 0 then None else Some(hits[0])
  }
}
