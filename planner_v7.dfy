/** The v7 route planner (`findRoute`): geocode the two places one after the
    other, ask OSRM for a route, draw it, report its length and warn about a
    long stretch between consecutive vertices. Every failure ends in the same
    message. */
module Planner7 {
  import opened Wrappers
  import opened Text
  import opened Geo

  /** `CHARGER_GAP_KM`, the segment length above which the route is flagged. */
  const CHARGER_GAP_KM: real := 300.0

  // ---------------------------------------------------------------------------
  // The gap loop
  // ---------------------------------------------------------------------------

  /** The length of the segment from vertex `k` to vertex `k + 1`, measured by
      `segKm` (the page's planar approximation). */
  function Seg(segKm: (LatLng, LatLng) -> real, coords: seq<LatLng>, k: nat): real
    requires k + 1 < |coords|
  {
    segKm(coords[k], coords[k + 1])
  }

  /** What the gap loop leaves in `maxGap`: the largest segment longer than
      `CHARGER_GAP_KM`, or 0 when there is none. */
  function MaxGap(segKm: (LatLng, LatLng) -> real, coords: seq<LatLng>): real
    decreases |coords|
  {
    if |coords| < 2 then 0.0
    else
      var g := MaxGap(segKm, coords[..|coords| - 1]);
      var d := Seg(segKm, coords, |coords| - 2);
      if d > CHARGER_GAP_KM then (if d > g then d else g) else g
  }

  /** The loop of `findRoute` that measures the route: `lastIdx` trails `i`
      by one, so each step measures one segment between neighbours. */
  method GapLoop(segKm: (LatLng, LatLng) -> real, coords: seq<LatLng>) returns (maxGap: real)
    ensures maxGap == MaxGap(segKm, coords)
  {
    maxGap := 0.0;
    var lastIdx := 0;
    var i := 1;
    while i < |coords|
      invariant 1 <= i
      invariant i <= |coords| || |coords| == 0
      invariant lastIdx == i - 1
      invariant i <= |coords| ==> maxGap == MaxGap(segKm, coords[..i])
      invariant |coords| == 0 ==> maxGap == 0.0
    {
      var dist := segKm(coords[lastIdx], coords[i]);
      assert coords[..i + 1][..i] == coords[..i];
      assert dist == Seg(segKm, coords[..i + 1], i - 1);
      if dist > CHARGER_GAP_KM {
        maxGap := if dist > maxGap then dist else maxGap;
      }
      lastIdx := i;
      i := i + 1;
    }
    if |coords| > 0 {
      assert coords[..|coords|] == coords;
    }
  }

  lemma SegPrefix(segKm: (LatLng, LatLng) -> real, coords: seq<LatLng>, n: nat, k: nat)
    requires n <= |coords| && k + 1 < n
    ensures Seg(segKm, coords[..n], k) == Seg(segKm, coords, k)
  {
  }

  /** `maxGap` is 0 or beyond the threshold; when beyond, it is the length of
      some segment; and it is at least every segment beyond the threshold. */
  lemma {:induction false} MaxGapFacts(segKm: (LatLng, LatLng) -> real, coords: seq<LatLng>)
    ensures var g := MaxGap(segKm, coords);
      (g == 0.0 || g > CHARGER_GAP_KM)
      && (g > 0.0 ==> exists k :: 0 <= k < |coords| - 1 && Seg(segKm, coords, k) == g)
      && forall k :: 0 <= k < |coords| - 1 && Seg(segKm, coords, k) > CHARGER_GAP_KM ==>
           Seg(segKm, coords, k) <= g
    decreases |coords|
  {
    if |coords| >= 2 {
      var n := |coords| - 1;
      var init := coords[..n];
      MaxGapFacts(segKm, init);
      forall k | 0 <= k < n - 1 ensures Seg(segKm, init, k) == Seg(segKm, coords, k) {
        SegPrefix(segKm, coords, n, k);
      }
      var g0 := MaxGap(segKm, init);
      if g0 > 0.0 {
        var k :| 0 <= k < n - 1 && Seg(segKm, init, k) == g0;
        assert Seg(segKm, coords, k) == g0;
      }
    }
  }

  /** The warning is due exactly when some single segment is longer than
      `CHARGER_GAP_KM`, and then `maxGap` is the longest segment. */
  lemma WarnsIffLongSegment(segKm: (LatLng, LatLng) -> real, coords: seq<LatLng>)
    ensures MaxGap(segKm, coords) > CHARGER_GAP_KM
      <==> exists k :: 0 <= k < |coords| - 1 && Seg(segKm, coords, k) > CHARGER_GAP_KM
    ensures MaxGap(segKm, coords) > CHARGER_GAP_KM ==>
      forall k :: 0 <= k < |coords| - 1 ==> Seg(segKm, coords, k) <= MaxGap(segKm, coords)
  {
    MaxGapFacts(segKm, coords);
    var g := MaxGap(segKm, coords);
    if exists k :: 0 <= k < |coords| - 1 && Seg(segKm, coords, k) > CHARGER_GAP_KM {
      var k :| 0 <= k < |coords| - 1 && Seg(segKm, coords, k) > CHARGER_GAP_KM;
      assert Seg(segKm, coords, k) <= g;
    }
  }

  /** A single point, or no route at all, never warns. */
  lemma ShortRouteNeverWarns(segKm: (LatLng, LatLng) -> real, coords: seq<LatLng>)
    requires |coords| < 2
    ensures !(MaxGap(segKm, coords) > CHARGER_GAP_KM)
  {
  }

  /** Only one segment at a time is measured: a route of two 200 km segments,
      400 km with no vertex between, carries no warning. */
  lemma ConsecutiveSegmentsOnly(segKm: (LatLng, LatLng) -> real, a: LatLng, b: LatLng, c: LatLng)
    requires segKm(a, b) == 200.0 && segKm(b, c) == 200.0
    ensures Seg(segKm, [a, b, c], 0) + Seg(segKm, [a, b, c], 1) > CHARGER_GAP_KM
    ensures MaxGap(segKm, [a, b, c]) == 0.0
  {
    assert [a, b][..1] == [a];
    assert Seg(segKm, [a, b], 0) == 200.0;
    assert MaxGap(segKm, [a, b]) == 0.0;
    assert [a, b, c][..2] == [a, b];
    assert Seg(segKm, [a, b, c], 1) == 200.0;
  }

  // ---------------------------------------------------------------------------
  // Messages
  // ---------------------------------------------------------------------------

  /** `distance_km`: the route's `distance` in kilometres, `NaN` (here
      absent) when OSRM gave no distance. */
  function KmOf(distance: Option<real>): (km: Option<real>)
    ensures km.Some? <==> distance.Some?
    ensures km.Some? ==> km.value * 1000.0 == distance.value
  {
    if distance.Some? then Some(distance.value / 1000.0) else None
  }

  /** The warning `findRoute` appends: the longest gap, when it is beyond the
      threshold. */
  function Warning(maxGap: real): (w: Option<real>)
    ensures w.Some? <==> maxGap > CHARGER_GAP_KM
    ensures w.Some? ==> w.value == maxGap
  {
    if maxGap > CHARGER_GAP_KM then Some(maxGap) else None
  }

  /** What `#routeMsg` shows. */
  datatype Message7 = Blank | Finding | Failed | Found(km: Option<real>, warning: Option<real>)

  /** `toFixed(0)`, with `NaN` for a missing distance. */
  function KmText(km: Option<real>): string {
    if km.Some? then ToFixed0(km.value) else "NaN"
  }

  function MessageText(m: Message7): string {
    match m
    case Blank => ""
    case Finding => "Finding route..."
    case Failed => "Error finding route."
    case Found(km, warning) =>
      "Found route.<br>Chargers within 5.0 km highlighted.<br>Total route length: " + KmText(km) + " km"
      + (if warning.Some?
         then "<br><span style='color:red;'>\U{26A0}\U{FE0F} Warning: this route includes a stretch of ~"
              + ToFixed0(warning.value) + " km with limited chargers.</span>"
         else "")
  }

  /** The single error text cannot be mistaken for a found route. */
  lemma FailedTextDistinct(m: Message7)
    requires m != Failed
    ensures MessageText(m) != MessageText(Failed)
  {
    assert |MessageText(Failed)| == 20;
  }

  // ---------------------------------------------------------------------------
  // The state of the page
  // ---------------------------------------------------------------------------

  /** The planner's state: the polylines added to the map, in order, the
      message, and the logs of the Nominatim queries and OSRM requests sent. */
  datatype State7 = State7(
    layers: seq<seq<LatLng>>,
    msg: Message7,
    geoQueries: seq<string>,
    routeRequests: seq<RouteRequest>)

  /** The text sent to Nominatim for a place: the input value, untrimmed,
      with ", Australia" appended. */
  function GeoQuery(q: string): (r: string)
    ensures |r| == |q| + 11 && r[..|q|] == q
  {
    q + ", Australia"
  }

  /** `geo(q)`: one request; a failed or empty answer throws (here `None`),
      otherwise the first place. */
  function GeoStep(v: State7, q: string, reply: GeoReply): (State7, Option<Candidate>) {
    var v1 := v.(geoQueries := v.geoQueries + [GeoQuery(q)]);
    match reply
    case GeoFailed => (v1, None)
    case GeoOk(hits) => (v1, First(hits))
  }

  /** The two awaits: the destination is asked for only once the origin was
      found. */
  function GeocodeBoth7(v: State7, origin: string, destination: string, oReply: GeoReply, dReply: GeoReply)
    : (State7, Option<Candidate>, Option<Candidate>)
  {
    var (v1, oc) := GeoStep(v, origin, oReply);
    if oc.None? then (v1, None, None)
    else
      var (v2, dc) := GeoStep(v1, destination, dReply);
      (v2, oc, dc)
  }

  /** The part of `findRoute` after the route request: no route throws; a
      route is swapped to `[lat, lng]`; `addTo(window.map)` throws when the
      page has no Leaflet map in `window.map` (`mapGlobal`), before any line
      is added; otherwise the line is added, `fitBounds` throws on an empty
      line, and the distance and any gap warning are reported. */
  function DrawRoute7(segKm: (LatLng, LatLng) -> real, mapGlobal: bool, v: State7, rReply: RouteReply): State7 {
    match rReply
    case RouteFailed => v.(msg := Failed)
    case RouteFound(raw, distance) =>
      var coords := SwapAll(raw);
      if !mapGlobal then v.(msg := Failed)
      else
      var v1 := v.(layers := v.layers + [coords]);
      if |coords| == 0 then v1.(msg := Failed)
      else v1.(msg := Found(KmOf(distance), Warning(MaxGap(segKm, coords))))
  }

  /** `findRoute`, given the two input values and the replies the services
      would give. */
  function FindRouteStep(segKm: (LatLng, LatLng) -> real, mapGlobal: bool, v: State7, origin: string, destination: string,
                         oReply: GeoReply, dReply: GeoReply, rReply: RouteReply): State7
  {
    var (v1, oc, dc) := GeocodeBoth7(v.(msg := Finding), origin, destination, oReply, dReply);
    if oc.None? || dc.None? then v1.(msg := Failed)
    else DrawRoute7(segKm, mapGlobal, v1.(routeRequests := v1.routeRequests + [RequestFor(oc.value, dc.value)]), rReply)
  }

  /** A geocoding reply that `geo` turns into a place rather than a throw. */
  predicate Usable(r: GeoReply) { r.GeoOk? && |r.hits| > 0 }

  // ---------------------------------------------------------------------------
  // Properties of `findRoute`
  // ---------------------------------------------------------------------------

  /** One geocoding sends exactly the place with ", Australia" and returns
      the first hit, or throws; nothing else changes. */
  lemma GeoStepFacts(v: State7, q: string, reply: GeoReply)
    ensures var (v', c) := GeoStep(v, q, reply);
      v'.geoQueries == v.geoQueries + [q + ", Australia"]
      && v'.layers == v.layers && v'.msg == v.msg && v'.routeRequests == v.routeRequests
      && (c.Some? <==> Usable(reply))
      && (c.Some? ==> c.value == reply.hits[0])
  {
  }

  /** What geocoding both places does: both are found exactly when both
      replies are usable; a failed origin means the destination is never
      asked for. */
  lemma {:induction false} GeocodeBoth7Facts(v: State7, origin: string, destination: string,
                                             oReply: GeoReply, dReply: GeoReply)
    ensures var (v', oc, dc) := GeocodeBoth7(v, origin, destination, oReply, dReply);
      v'.layers == v.layers && v'.msg == v.msg && v'.routeRequests == v.routeRequests
      && (oc.Some? && dc.Some? <==> Usable(oReply) && Usable(dReply))
      && (!Usable(oReply) ==> v'.geoQueries == v.geoQueries + [GeoQuery(origin)])
      && (Usable(oReply) ==>
            v'.geoQueries == v.geoQueries + [GeoQuery(origin), GeoQuery(destination)]
            && oc == Some(oReply.hits[0]))
      && (oc.Some? && dc.Some? ==> dc.value == dReply.hits[0])
  {
    GeoStepFacts(v, origin, oReply);
    var (v1, oc) := GeoStep(v, origin, oReply);
    if oc.Some? {
      GeoStepFacts(v1, destination, dReply);
    }
  }

  /** Drawing a route keeps every earlier polyline; only a route drawn on a
      map adds one, the swapped vertices; a route that can be framed is
      reported with its length and the gap warning. */
  lemma {:induction false} DrawRoute7Facts(segKm: (LatLng, LatLng) -> real, mapGlobal: bool, v: State7, rReply: RouteReply)
    ensures var v' := DrawRoute7(segKm, mapGlobal, v, rReply);
      v'.geoQueries == v.geoQueries && v'.routeRequests == v.routeRequests
      && (rReply.RouteFailed? || !mapGlobal ==> v'.layers == v.layers && v'.msg == Failed)
      && (rReply.RouteFound? && mapGlobal ==> v'.layers == v.layers + [SwapAll(rReply.coords)])
      && (v'.msg == Failed <==> rReply.RouteFailed? || !mapGlobal || |rReply.coords| == 0)
      && (v'.msg != Failed ==>
            v'.msg == Found(KmOf(rReply.distance), Warning(MaxGap(segKm, SwapAll(rReply.coords)))))
  {
  }

  /** The error funnel: `findRoute` ends with "Error finding route." exactly
      when an origin, a destination, a route or the map global is missing, or
      the route is empty; otherwise with the found message. It never stays at
      "Finding". */
  lemma {:induction false} FindRouteFunnel(segKm: (LatLng, LatLng) -> real, mapGlobal: bool, v: State7, origin: string, destination: string,
                                           oReply: GeoReply, dReply: GeoReply, rReply: RouteReply)
    ensures var v' := FindRouteStep(segKm, mapGlobal, v, origin, destination, oReply, dReply, rReply);
      (v'.msg == Failed <==>
         !Usable(oReply) || !Usable(dReply) || rReply.RouteFailed? || !mapGlobal || |rReply.coords| == 0)
      && (v'.msg == Failed || v'.msg.Found?)
  {
    var v0 := v.(msg := Finding);
    GeocodeBoth7Facts(v0, origin, destination, oReply, dReply);
    var (v1, oc, dc) := GeocodeBoth7(v0, origin, destination, oReply, dReply);
    if oc.Some? && dc.Some? {
      DrawRoute7Facts(segKm, mapGlobal, v1.(routeRequests := v1.routeRequests + [RequestFor(oc.value, dc.value)]), rReply);
    }
  }

  /** A place that is not found stops the handler there: a failed origin sends
      one query only and no route request, and no polyline is added. */
  lemma {:induction false} FindRouteOriginFailed(segKm: (LatLng, LatLng) -> real, mapGlobal: bool, v: State7, origin: string, destination: string,
                                                 oReply: GeoReply, dReply: GeoReply, rReply: RouteReply)
    requires !Usable(oReply)
    ensures var v' := FindRouteStep(segKm, mapGlobal, v, origin, destination, oReply, dReply, rReply);
      v'.geoQueries == v.geoQueries + [origin + ", Australia"]
      && v'.routeRequests == v.routeRequests && v'.layers == v.layers && v'.msg == Failed
  {
    GeocodeBoth7Facts(v.(msg := Finding), origin, destination, oReply, dReply);
  }

  /** Polylines are only ever added: the earlier ones stay, in order, and at
      most one is added per call. */
  lemma {:induction false} FindRouteAppendOnly(segKm: (LatLng, LatLng) -> real, mapGlobal: bool, v: State7, origin: string, destination: string,
                                               oReply: GeoReply, dReply: GeoReply, rReply: RouteReply)
    ensures var v' := FindRouteStep(segKm, mapGlobal, v, origin, destination, oReply, dReply, rReply);
      v'.layers[..|v.layers|] == v.layers && |v.layers| <= |v'.layers| <= |v.layers| + 1
  {
    var v0 := v.(msg := Finding);
    GeocodeBoth7Facts(v0, origin, destination, oReply, dReply);
    var (v1, oc, dc) := GeocodeBoth7(v0, origin, destination, oReply, dReply);
    if oc.Some? && dc.Some? {
      var v2 := v1.(routeRequests := v1.routeRequests + [RequestFor(oc.value, dc.value)]);
      DrawRoute7Facts(segKm, mapGlobal, v2, rReply);
    }
  }

  /** Without a Leaflet map in `window.map`, as on the page folium generates
      (its map is the global `map_<id>`), every call ends with "Error finding
      route." and no polyline is ever added, whatever the services answer. */
  lemma {:induction false} NoMapGlobalNeverDraws(segKm: (LatLng, LatLng) -> real, v: State7, origin: string, destination: string,
                                                 oReply: GeoReply, dReply: GeoReply, rReply: RouteReply)
    ensures var v' := FindRouteStep(segKm, false, v, origin, destination, oReply, dReply, rReply);
      v'.msg == Failed && v'.layers == v.layers
  {
    var v0 := v.(msg := Finding);
    GeocodeBoth7Facts(v0, origin, destination, oReply, dReply);
    var (v1, oc, dc) := GeocodeBoth7(v0, origin, destination, oReply, dReply);
    if oc.Some? && dc.Some? {
      DrawRoute7Facts(segKm, false, v1.(routeRequests := v1.routeRequests + [RequestFor(oc.value, dc.value)]), rReply);
    }
  }

  /** With the map global in place, a usable pair of places and a non-empty
      route always give the found message and the drawn line. */
  lemma {:induction false} MapGlobalDraws(segKm: (LatLng, LatLng) -> real, v: State7, origin: string, destination: string,
                                          oReply: GeoReply, dReply: GeoReply, rReply: RouteReply)
    requires Usable(oReply) && Usable(dReply) && rReply.RouteFound? && |rReply.coords| > 0
    ensures var v' := FindRouteStep(segKm, true, v, origin, destination, oReply, dReply, rReply);
      v'.msg.Found? && v'.layers == v.layers + [SwapAll(rReply.coords)]
  {
    FindRouteFunnel(segKm, true, v, origin, destination, oReply, dReply, rReply);
    FindRouteSuccess(segKm, true, v, origin, destination, oReply, dReply, rReply);
  }

  /** A found route: both places were geocoded, OSRM was asked for the route
      between the first hits, the swapped line was added after the earlier
      ones, the distance is reported in km, and the warning appears exactly
      when one segment of the drawn line exceeds `CHARGER_GAP_KM`, giving the
      longest one. */
  lemma {:induction false} FindRouteSuccess(segKm: (LatLng, LatLng) -> real, mapGlobal: bool, v: State7, origin: string, destination: string,
                                            oReply: GeoReply, dReply: GeoReply, rReply: RouteReply)
    ensures var v' := FindRouteStep(segKm, mapGlobal, v, origin, destination, oReply, dReply, rReply);
      v'.msg.Found? ==>
        mapGlobal && Usable(oReply) && Usable(dReply) && rReply.RouteFound?
        && v'.geoQueries == v.geoQueries + [GeoQuery(origin), GeoQuery(destination)]
        && v'.routeRequests == v.routeRequests + [RequestFor(oReply.hits[0], dReply.hits[0])]
        && v'.layers == v.layers + [SwapAll(rReply.coords)]
        && v'.msg.km == KmOf(rReply.distance)
        && (v'.msg.warning.Some? <==>
              exists k :: 0 <= k < |rReply.coords| - 1 && Seg(segKm, SwapAll(rReply.coords), k) > CHARGER_GAP_KM)
        && (v'.msg.warning.Some? ==>
              forall k :: 0 <= k < |rReply.coords| - 1 ==> Seg(segKm, SwapAll(rReply.coords), k) <= v'.msg.warning.value)
  {
    var v0 := v.(msg := Finding);
    GeocodeBoth7Facts(v0, origin, destination, oReply, dReply);
    var (v1, oc, dc) := GeocodeBoth7(v0, origin, destination, oReply, dReply);
    if oc.Some? && dc.Some? {
      var v2 := v1.(routeRequests := v1.routeRequests + [RequestFor(oc.value, dc.value)]);
      DrawRoute7Facts(segKm, mapGlobal, v2, rReply);
      if rReply.RouteFound? {
        WarnsIffLongSegment(segKm, SwapAll(rReply.coords));
      }
    }
  }

  // ---------------------------------------------------------------------------
  // The page's planner
  // ---------------------------------------------------------------------------

  class RoutePlanner7 {
    const segKm: (LatLng, LatLng) -> real
    const mapGlobal: bool
    var layers: seq<seq<LatLng>>
    var msg: Message7
    ghost var geoQueries: seq<string>
    ghost var routeRequests: seq<RouteRequest>

    ghost function View(): State7
      reads this
    {
      State7(layers, msg, geoQueries, routeRequests)
    }

    /** The page as loaded: no route drawn, an empty message; `mapGlobal`
        says whether `window.map` holds the Leaflet map. */
    constructor(segKm: (LatLng, LatLng) -> real, mapGlobal: bool)
      ensures this.segKm == segKm && this.mapGlobal == mapGlobal
      ensures View() == State7([], Blank, [], [])
    {
      this.segKm := segKm;
      this.mapGlobal := mapGlobal;
      layers, msg := [], Blank;
      geoQueries, routeRequests := [], [];
    }

    /** `geo(q)`, `reply` being what Nominatim would answer. */
    method Geo(q: string, reply: GeoReply) returns (c: Option<Candidate>)
      modifies this
      ensures (View(), c) == GeoStep(old(View()), q, reply)
    {
      geoQueries := geoQueries + [GeoQuery(q)];
      if reply.GeoFailed? {
        return None;
      }
      c := First(reply.hits);
    }

    /** `findRoute`, given the values of the two inputs and the replies. */
    method FindRoute(origin: string, destination: string, oReply: GeoReply, dReply: GeoReply, rReply: RouteReply)
      modifies this
      ensures View() == FindRouteStep(segKm, mapGlobal, old(View()), origin, destination, oReply, dReply, rReply)
    {
      msg := Finding;
      var oc := Geo(origin, oReply);
      if oc.None? {
        msg := Failed;
        return;
      }
      var dc := Geo(destination, dReply);
      if dc.None? {
        msg := Failed;
        return;
      }
      routeRequests := routeRequests + [RequestFor(oc.value, dc.value)];
      Draw(rReply);
    }

    /** The part of `findRoute` after the route request. */
    method Draw(rReply: RouteReply)
      modifies this
      ensures View() == DrawRoute7(segKm, mapGlobal, old(View()), rReply)
    {
      if rReply.RouteFailed? {
        // `routeData.routes[0]` is undefined
        msg := Failed;
        return;
      }
      var coords := SwapAll(rReply.coords);
      var distanceKm := KmOf(rReply.distance);
      if !mapGlobal {
        // `addTo(window.map)` throws on an undefined map
        msg := Failed;
        return;
      }
      layers := layers + [coords];
      if |coords| == 0 {
        // fitBounds throws on the bounds of an empty line
        msg := Failed;
        return;
      }
      msg := Found(distanceKm, None);
      var maxGap := GapLoop(segKm, coords);
      if maxGap > CHARGER_GAP_KM {
        msg := msg.(warning := Some(maxGap));
      }
    }
  }
}
