/** The route planner the v6 script embeds in its page: the distance from a
    charger to a route, the chargers highlighted near a route, the geocoder
    suggestion cache, and the "Find route" and "Clear" handlers with the
    message and map layers they leave behind. */
module Planner6 {
  import opened Wrappers
  import opened Text
  import opened Seqs
  import opened Geo
  import Records6

  /** Chargers within this many km of the route are highlighted. */
  const PROX_KM: real := 5.0

  const FAST_COLOUR: string := "#2563eb"
  const SLOW_COLOUR: string := "#22c55e"

  // ---------------------------------------------------------------------------
  // Chargers and distances
  // ---------------------------------------------------------------------------

  /** One element of `EV_POINTS`, as far as the planner reads it. */
  datatype Charger = Charger(lat: real, lon: real, fast: bool)

  function At(c: Charger): LatLng { LatLng(c.lat, c.lon) }

  /** `EV_POINTS`: one charger per site row, in row order. */
  function EvPoints(sites: seq<Records6.Site>): (points: seq<Charger>)
    requires forall i :: 0 <= i < |sites| ==> sites[i].row.lat.Some? && sites[i].row.lon.Some?
    ensures |points| == |sites|
    ensures forall i :: 0 <= i < |sites| ==>
      points[i].lat == sites[i].row.lat.value && points[i].lon == sites[i].row.lon.value
      && points[i].fast == sites[i].isFast
  {
    seq(|sites|, i requires 0 <= i < |sites| && sites[i].row.lat.Some? && sites[i].row.lon.Some? =>
      Charger(sites[i].row.lat.value, sites[i].row.lon.value, sites[i].isFast))
  }

  /** A distance in km that may be `Infinity`, the initial `best` of `minDistKm`. */
  datatype Km = Finite(km: real) | Infinity

  predicate Below(d: real, best: Km) { best.Infinity? || d < best.km }

  /** `dkm <= PROX_KM`; never true of `Infinity`. */
  predicate WithinProx(d: Km) { d.Finite? && d.km <= PROX_KM }

  /** The distance from `at` to the closest vertex of the route, vertices
      being `[lon, lat]` pairs. */
  function MinDist(dist: (LatLng, LatLng) -> real, at: LatLng, coords: seq<LonLat>): Km
    decreases |coords|
  {
    if |coords| == 0 then Infinity
    else
      var best := MinDist(dist, at, coords[..|coords| - 1]);
      var d := dist(at, ToLatLng(coords[|coords| - 1]));
      if Below(d, best) then Finite(d) else best
  }

  /** `minDistKm`. */
  method MinDistKm(dist: (LatLng, LatLng) -> real, at: LatLng, coords: seq<LonLat>) returns (best: Km)
    ensures best == MinDist(dist, at, coords)
  {
    best := Infinity;
    for i := 0 to |coords|
      invariant best == MinDist(dist, at, coords[..i])
    {
      var p := coords[i];
      var d := dist(at, LatLng(p.lat, p.lon));
      assert coords[..i + 1][..i] == coords[..i];
      if Below(d, best) {
        best := Finite(d);
      }
    }
    assert coords[..|coords|] == coords;
  }

  /** `MinDist` is the minimum over the vertices: infinite exactly for an empty
      route, attained at some vertex, and no larger than any vertex distance. */
  lemma {:induction false} MinDistIsMinimum(dist: (LatLng, LatLng) -> real, at: LatLng, coords: seq<LonLat>)
    ensures MinDist(dist, at, coords).Infinity? <==> |coords| == 0
    ensures MinDist(dist, at, coords).Finite? ==>
      exists i :: 0 <= i < |coords| && dist(at, ToLatLng(coords[i])) == MinDist(dist, at, coords).km
    ensures forall i :: 0 <= i < |coords| ==>
      MinDist(dist, at, coords).Finite? && MinDist(dist, at, coords).km <= dist(at, ToLatLng(coords[i]))
    decreases |coords|
  {
    if |coords| > 0 {
      var init := coords[..|coords| - 1];
      MinDistIsMinimum(dist, at, init);
      assert forall i :: 0 <= i < |init| ==> init[i] == coords[i];
      if MinDist(dist, at, init).Finite? {
        var j :| 0 <= j < |init| && dist(at, ToLatLng(init[j])) == MinDist(dist, at, init).km;
        assert init[j] == coords[j];
      }
    }
  }

  /** A charger is near the route exactly when some vertex is within
      `PROX_KM` of it, a distance of exactly `PROX_KM` included; on an empty
      route no charger is near. */
  lemma NearIffSomeVertex(dist: (LatLng, LatLng) -> real, at: LatLng, coords: seq<LonLat>)
    ensures WithinProx(MinDist(dist, at, coords)) <==>
      exists i :: 0 <= i < |coords| && dist(at, ToLatLng(coords[i])) <= PROX_KM
    ensures |coords| == 0 ==> !WithinProx(MinDist(dist, at, coords))
  {
    MinDistIsMinimum(dist, at, coords);
  }

  // ---------------------------------------------------------------------------
  // Highlighting the chargers near a route
  // ---------------------------------------------------------------------------

  datatype Marker = Marker(at: LatLng, colour: string)

  function NearTest(dist: (LatLng, LatLng) -> real, coords: seq<LonLat>): Charger -> bool {
    c => WithinProx(MinDist(dist, At(c), coords))
  }

  /** The chargers near the route, in `EV_POINTS` order. */
  function NearChargers(points: seq<Charger>, dist: (LatLng, LatLng) -> real, coords: seq<LonLat>): seq<Charger> {
    Filter(points, NearTest(dist, coords))
  }

  /** The circle marker added for a near charger: blue when fast, green when not. */
  function MarkerOf(c: Charger): Marker {
    Marker(At(c), if c.fast then FAST_COLOUR else SLOW_COLOUR)
  }

  function MarkersOf(cs: seq<Charger>): (ms: seq<Marker>)
    ensures |ms| == |cs|
    ensures forall i :: 0 <= i < |cs| ==> ms[i] == MarkerOf(cs[i])
  {
    seq(|cs|, i requires 0 <= i < |cs| => MarkerOf(cs[i]))
  }

  function PointsOf(cs: seq<Charger>): (ps: seq<LatLng>)
    ensures |ps| == |cs|
    ensures forall i :: 0 <= i < |cs| ==> ps[i] == At(cs[i])
  {
    seq(|cs|, i requires 0 <= i < |cs| => At(cs[i]))
  }

  /** The `EV_POINTS.forEach` loop of `doRoute`: the points of the near
      chargers, for the heat layer, and one marker per near charger. */
  method HighlightNear(points: seq<Charger>, dist: (LatLng, LatLng) -> real, coords: seq<LonLat>)
    returns (nearPts: seq<LatLng>, markers: seq<Marker>)
    ensures nearPts == PointsOf(NearChargers(points, dist, coords))
    ensures markers == MarkersOf(NearChargers(points, dist, coords))
  {
    nearPts, markers := [], [];
    for i := 0 to |points|
      invariant nearPts == PointsOf(Filter(points[..i], NearTest(dist, coords)))
      invariant markers == MarkersOf(Filter(points[..i], NearTest(dist, coords)))
    {
      var pt := points[i];
      var dkm := MinDistKm(dist, At(pt), coords);
      assert points[..i + 1][..i] == points[..i];
      if WithinProx(dkm) {
        nearPts := nearPts + [At(pt)];
      }
      if WithinProx(dkm) {
        var c := if pt.fast then FAST_COLOUR else SLOW_COLOUR;
        markers := markers + [Marker(At(pt), c)];
      }
    }
    assert points[..|points|] == points;
  }

  /** A charger is highlighted exactly when it is in `EV_POINTS` and within
      `PROX_KM` of some route vertex. */
  lemma NearChargersIff(points: seq<Charger>, dist: (LatLng, LatLng) -> real, coords: seq<LonLat>, c: Charger)
    ensures c in NearChargers(points, dist, coords) <==>
      c in points && exists i :: 0 <= i < |coords| && dist(At(c), ToLatLng(coords[i])) <= PROX_KM
  {
    FilterMembership(points, NearTest(dist, coords), c);
    NearIffSomeVertex(dist, At(c), coords);
  }

  /** On a page whose `EV_POINTS` are built from the enriched site rows, a
      charger is highlighted exactly when some site has its position and fast
      flag and lies within `PROX_KM` of some route vertex. */
  lemma HighlightedSites(sites: seq<Records6.Site>, dist: (LatLng, LatLng) -> real, coords: seq<LonLat>, c: Charger)
    requires forall i :: 0 <= i < |sites| ==> sites[i].row.lat.Some? && sites[i].row.lon.Some?
    ensures c in NearChargers(EvPoints(sites), dist, coords) <==>
      (exists i :: 0 <= i < |sites| && sites[i].row.lat == Some(c.lat) && sites[i].row.lon == Some(c.lon)
                   && sites[i].isFast == c.fast)
      && exists k :: 0 <= k < |coords| && dist(At(c), ToLatLng(coords[k])) <= PROX_KM
  {
    var points := EvPoints(sites);
    NearChargersIff(points, dist, coords, c);
    if c in points {
      var i :| 0 <= i < |points| && points[i] == c;
      assert sites[i].row.lat == Some(c.lat) && sites[i].row.lon == Some(c.lon) && sites[i].isFast == c.fast;
    }
    if exists i :: 0 <= i < |sites| && sites[i].row.lat == Some(c.lat) && sites[i].row.lon == Some(c.lon)
                   && sites[i].isFast == c.fast {
      var i :| 0 <= i < |sites| && sites[i].row.lat == Some(c.lat) && sites[i].row.lon == Some(c.lon)
               && sites[i].isFast == c.fast;
      assert points[i] == c;
    }
  }

  /** Highlighting keeps the `EV_POINTS` order: the near chargers of a
      concatenation are those of each part, one after the other. */
  lemma NearChargersOrder(a: seq<Charger>, b: seq<Charger>, dist: (LatLng, LatLng) -> real, coords: seq<LonLat>)
    ensures NearChargers(a + b, dist, coords) == NearChargers(a, dist, coords) + NearChargers(b, dist, coords)
  {
    FilterAppend(a, b, NearTest(dist, coords));
  }

  // ---------------------------------------------------------------------------
  // Messages
  // ---------------------------------------------------------------------------

  /** What `#route-msg` shows. */
  datatype Message = Blank | Finding | NeedBoth | NotFound | Unavailable | Found(km: real)

  function MessageText(m: Message): string {
    match m
    case Blank => ""
    case Finding => "Finding route..."
    case NeedBoth => "Please enter both origin and destination."
    case NotFound => "Could not find one or both places. Try being more specific."
    case Unavailable => "Route unavailable. Try a nearby suburb or major city."
    case Found(km) => "Found route (" + ToFixed0(km) + " km). Chargers within 5.0 km highlighted."
  }

  /** `route.distance ? route.distance / 1000.0 : 0`, a missing or zero
      distance giving 0. */
  function TotalKm(distance: Option<real>): (km: real)
    ensures distance.Some? && distance.value != 0.0 ==> km * 1000.0 == distance.value
    ensures distance.None? || distance.value == 0.0 ==> km == 0.0
  {
    if distance.Some? && distance.value != 0.0 then distance.value / 1000.0 else 0.0
  }

  /** Different outcomes show different texts, so a reader can tell them apart. */
  lemma MessageTextsDistinct(m1: Message, m2: Message)
    requires !m1.Found? && !m2.Found? && m1 != m2
    ensures MessageText(m1) != MessageText(m2)
  {
    FixedTextLength(m1);
    FixedTextLength(m2);
  }

  /** The fixed texts have five different lengths. */
  lemma FixedTextLength(m: Message)
    requires !m.Found?
    ensures |MessageText(m)| == match m
      case Blank => 0
      case Finding => 16
      case NeedBoth => 41
      case NotFound => 59
      case Unavailable => 53
      case Found(_) => 0
  {
  }

  // ---------------------------------------------------------------------------
  // The state of the page
  // ---------------------------------------------------------------------------

  /** Which input a geocoding is for; its tag prefixes the cache key. */
  datatype Which = Origin | Destination

  function Tag(w: Which): string {
    match w
    case Origin => "o"
    case Destination => "d"
  }

  /** What the page is built with: `EV_POINTS`, the distance function
      (`haversineKm`) and whether the heat-layer plugin is loaded. */
  datatype Page = Page(points: seq<Charger>, dist: (LatLng, LatLng) -> real, heatPlugin: bool)

  /** The planner's state: the suggestion cache, the contents of the route and
      near-charger layer groups, the heat layer (its points) if any, the
      message, and the logs of the Nominatim queries and OSRM requests sent. */
  datatype PlannerState = PlannerState(
    cache: map<string, seq<Candidate>>,
    routeLayer: seq<seq<LonLat>>,
    nearLayer: seq<Marker>,
    nearHeat: Option<seq<LatLng>>,
    msg: Message,
    geoQueries: seq<string>,
    routeRequests: seq<RouteRequest>)

  /** `which + '|' + q.trim()`. */
  function CacheKey(w: Which, q: string): string {
    Tag(w) + "|" + JsTrim(q)
  }

  /** The heat layer drawn for the near chargers: only when there is at least
      one and the plugin is loaded. */
  function HeatFor(page: Page, near: seq<Charger>): Option<seq<LatLng>> {
    if |near| > 0 && page.heatPlugin then Some(PointsOf(near)) else None
  }

  // ---------------------------------------------------------------------------
  // Suggestions and geocoding
  // ---------------------------------------------------------------------------

  /** `nominatimSuggest(q, which)`: a query shorter than three code units gives
      nothing; a cached key gives the cached list; otherwise Nominatim is asked
      for the untrimmed `q` and a successful reply is cached. */
  function SuggestStep(v: PlannerState, q: string, w: Which, reply: GeoReply): (PlannerState, seq<Candidate>) {
    var key := CacheKey(w, q);
    if Utf16Length(q) < 3 then (v, [])
    else if key in v.cache then (v, v.cache[key])
    else
      var v1 := v.(geoQueries := v.geoQueries + [q]);
      match reply
      case GeoFailed => (v1, [])
      case GeoOk(items) => (v1.(cache := v.cache[key := items]), items)
  }

  /** `geocodeFirst(place, which)`: the cache is consulted first, before any
      length test; otherwise the first suggestion, if any. */
  function GeocodeFirstStep(v: PlannerState, place: string, w: Which, reply: GeoReply): (PlannerState, Option<Candidate>) {
    var key := CacheKey(w, place);
    if key in v.cache then (v, First(v.cache[key]))
    else
      var (v1, items) := SuggestStep(v, place, w, reply);
      (v1, First(items))
  }

  /** Suggesting touches nothing but the cache and the query log. */
  ghost predicate SameLayers(a: PlannerState, b: PlannerState) {
    a.routeLayer == b.routeLayer && a.nearLayer == b.nearLayer && a.nearHeat == b.nearHeat
  }

  /** The cache only grows: an entry, once stored, stays and keeps its list. */
  ghost predicate CacheExtends(a: PlannerState, b: PlannerState) {
    forall k :: k in a.cache ==> k in b.cache && b.cache[k] == a.cache[k]
  }

  /** A short query, or one whose key is cached, sends nothing; another sends
      exactly itself, untrimmed; only a successful reply is stored, under the
      trimmed key, and the layers, message and route log never change. */
  lemma {:induction false} SuggestFacts(v: PlannerState, q: string, w: Which, reply: GeoReply)
    ensures var (v', items) := SuggestStep(v, q, w, reply);
      SameLayers(v, v') && v'.msg == v.msg && v'.routeRequests == v.routeRequests
      && CacheExtends(v, v')
      && (Utf16Length(q) < 3 ==> v' == v && items == [])
      && (Utf16Length(q) >= 3 && CacheKey(w, q) in v.cache ==> v' == v && items == v.cache[CacheKey(w, q)])
      && (Utf16Length(q) >= 3 && CacheKey(w, q) !in v.cache ==>
            v'.geoQueries == v.geoQueries + [q]
            && (reply.GeoFailed? ==> v'.cache == v.cache && items == [])
            && (reply.GeoOk? ==> v'.cache == v.cache[CacheKey(w, q) := reply.hits] && items == reply.hits))
  {
  }

  /** Asking again with the same query, however padded, sends nothing more and
      gives the same list, once a first reply was stored. */
  lemma {:induction false} SuggestRepeatIsCached(v: PlannerState, q: string, q2: string, w: Which, r1: GeoReply, r2: GeoReply)
    requires JsTrim(q2) == JsTrim(q) && Utf16Length(q2) >= 3
    requires r1.GeoOk?
    ensures var (v1, items1) := SuggestStep(v, q, w, r1);
      var (v2, items2) := SuggestStep(v1, q2, w, r2);
      Utf16Length(q) >= 3 ==> v2 == v1 && items2 == items1
  {
  }

  /** The cache check comes before the length test in `geocodeFirst`, so a
      place typed with fewer than three characters is still found when a
      padded suggestion query stored it, although suggesting it directly
      gives nothing. */
  lemma {:induction false} ShortLabelCachedHit(v: PlannerState, place: string, w: Which, r: GeoReply, c: Candidate, rest: seq<Candidate>)
    requires Utf16Length(place) < 3
    requires CacheKey(w, place) in v.cache && v.cache[CacheKey(w, place)] == [c] + rest
    ensures GeocodeFirstStep(v, place, w, r) == (v, Some(c))
    ensures SuggestStep(v, place, w, r) == (v, [])
  {
  }

  /** `geocodeFirst` gives the first stored or fetched suggestion, and sends at
      most the one query `place`: a cached key is answered from the cache with
      nothing sent, whatever the length; an uncached short place gives
      nothing; an uncached longer one sends `place` and gives the first hit
      of a successful reply. */
  lemma {:induction false} GeocodeFirstFacts(v: PlannerState, place: string, w: Which, reply: GeoReply)
    ensures var (v', c) := GeocodeFirstStep(v, place, w, reply);
      SameLayers(v, v') && v'.msg == v.msg && v'.routeRequests == v.routeRequests
      && CacheExtends(v, v')
      && (v'.geoQueries == v.geoQueries || v'.geoQueries == v.geoQueries + [place])
      && (c.Some? ==> CacheKey(w, place) in v'.cache && |v'.cache[CacheKey(w, place)]| > 0
                      && v'.cache[CacheKey(w, place)][0] == c.value)
      && (CacheKey(w, place) in v.cache ==> v' == v && c == First(v.cache[CacheKey(w, place)]))
      && (CacheKey(w, place) !in v.cache && Utf16Length(place) < 3 ==> v' == v && c.None?)
      && (CacheKey(w, place) !in v.cache && Utf16Length(place) >= 3 ==>
            v'.geoQueries == v.geoQueries + [place]
            && c == (if reply.GeoOk? then First(reply.hits) else None))
  {
  }

  // ---------------------------------------------------------------------------
  // The "Find route" and "Clear" handlers
  // ---------------------------------------------------------------------------

  /** The origin is geocoded, then the destination, whatever the origin gave. */
  function GeocodeBoth(v: PlannerState, o: string, d: string, oReply: GeoReply, dReply: GeoReply)
    : (PlannerState, Option<Candidate>, Option<Candidate>)
  {
    var (v1, oc) := GeocodeFirstStep(v, o, Origin, oReply);
    var (v2, dc) := GeocodeFirstStep(v1, d, Destination, dReply);
    (v2, oc, dc)
  }

  /** Geocoding both places changes only the cache and the query log. */
  lemma {:induction false} GeocodeBothFacts(v: PlannerState, o: string, d: string, oReply: GeoReply, dReply: GeoReply)
    ensures var (v', oc, dc) := GeocodeBoth(v, o, d, oReply, dReply);
      SameLayers(v, v') && v'.msg == v.msg && v'.routeRequests == v.routeRequests && CacheExtends(v, v')
  {
    GeocodeFirstFacts(v, o, Origin, oReply);
    var (v1, oc) := GeocodeFirstStep(v, o, Origin, oReply);
    GeocodeFirstFacts(v1, d, Destination, dReply);
  }

  /** The part of `doRoute` after the route request: a failed request only
      sets the message; a route clears both layers and the heat layer, draws
      the line, and, unless the line is empty (then `fitBounds` throws and the
      handler stops), marks the chargers near it and reports the distance. */
  function DrawRoute(page: Page, v: PlannerState, rReply: RouteReply): PlannerState {
    match rReply
    case RouteFailed => v.(msg := Unavailable)
    case RouteFound(coords, distance) =>
      var v1 := v.(routeLayer := [coords], nearLayer := [], nearHeat := None);
      if |coords| == 0 then v1
      else
        var near := NearChargers(page.points, page.dist, coords);
        v1.(nearLayer := MarkersOf(near), nearHeat := HeatFor(page, near), msg := Found(TotalKm(distance)))
  }

  /** The route request of `doRoute`: made only when both places were found,
      and then drawn. */
  function RequestRoute(page: Page, v: PlannerState, oc: Option<Candidate>, dc: Option<Candidate>,
                        rReply: RouteReply): PlannerState
  {
    if oc.None? || dc.None? then v.(msg := NotFound)
    else DrawRoute(page, v.(routeRequests := v.routeRequests + [RequestFor(oc.value, dc.value)]), rReply)
  }

  /** `doRoute` once both inputs are non-blank. */
  function Routed(page: Page, v: PlannerState, o: string, d: string,
                  oReply: GeoReply, dReply: GeoReply, rReply: RouteReply): PlannerState
  {
    var (v1, oc, dc) := GeocodeBoth(v, o, d, oReply, dReply);
    RequestRoute(page, v1, oc, dc, rReply)
  }

  /** `doRoute` with the two input values and the replies the geocoder and
      router would give. */
  function DoRouteStep(page: Page, v: PlannerState, originText: string, destText: string,
                       oReply: GeoReply, dReply: GeoReply, rReply: RouteReply): PlannerState
  {
    var o := JsTrim(originText);
    var d := JsTrim(destText);
    if o == "" || d == "" then v.(msg := NeedBoth)
    else Routed(page, v.(msg := Finding), o, d, oReply, dReply, rReply)
  }

  /** The Clear handler. */
  function ClearStep(v: PlannerState): PlannerState {
    v.(routeLayer := [], nearLayer := [], nearHeat := None, msg := Blank)
  }

  /** The layers always show one route and exactly the chargers near it, or
      nothing at all. */
  ghost predicate HighlightsMatch(page: Page, v: PlannerState) {
    (v.routeLayer == [] && v.nearLayer == [] && v.nearHeat == None)
    || (|v.routeLayer| == 1
        && v.nearLayer == MarkersOf(NearChargers(page.points, page.dist, v.routeLayer[0]))
        && v.nearHeat == HeatFor(page, NearChargers(page.points, page.dist, v.routeLayer[0])))
  }

  /** What drawing a route does, and that it keeps the layers consistent. */
  lemma {:induction false} DrawRouteFacts(page: Page, v: PlannerState, rReply: RouteReply)
    ensures var v' := DrawRoute(page, v, rReply);
      v'.cache == v.cache && v'.geoQueries == v.geoQueries && v'.routeRequests == v.routeRequests
      && (rReply.RouteFailed? ==> SameLayers(v, v') && v'.msg == Unavailable)
      && (rReply.RouteFound? ==> v'.routeLayer == [rReply.coords])
      && (rReply.RouteFound? && |rReply.coords| == 0 ==> v'.msg == v.msg && v'.nearLayer == [] && v'.nearHeat == None)
      && (rReply.RouteFound? && |rReply.coords| > 0 ==>
            v'.nearLayer == MarkersOf(NearChargers(page.points, page.dist, rReply.coords))
            && v'.nearHeat == HeatFor(page, NearChargers(page.points, page.dist, rReply.coords))
            && v'.msg == Found(TotalKm(rReply.distance)))
    ensures HighlightsMatch(page, v) ==> HighlightsMatch(page, DrawRoute(page, v, rReply))
  {
    if rReply.RouteFound? && |rReply.coords| == 0 {
      assert NearChargers(page.points, page.dist, []) == [] by {
        forall c | c in page.points ensures !NearTest(page.dist, [])(c) {
          NearIffSomeVertex(page.dist, At(c), []);
        }
        FilterNone(page.points, NearTest(page.dist, []));
      }
    }
  }

  /** What `doRoute` does once geocoding starts: only a route for two found
      places is requested and drawn; otherwise the layers stay as they were. */
  lemma {:induction false} RoutedFacts(page: Page, v: PlannerState, o: string, d: string,
                                       oReply: GeoReply, dReply: GeoReply, rReply: RouteReply)
    requires v.msg == Finding
    ensures var v' := Routed(page, v, o, d, oReply, dReply, rReply);
      (v'.msg == NotFound ==> SameLayers(v, v') && v'.routeRequests == v.routeRequests)
      && (v'.msg != NotFound ==> |v'.routeRequests| == |v.routeRequests| + 1)
      && (v'.msg == Unavailable ==> SameLayers(v, v'))
      && v'.msg != NeedBoth && v'.msg != Blank
    ensures var v' := Routed(page, v, o, d, oReply, dReply, rReply);
      v'.msg.Found? ==>
        rReply.RouteFound? && |rReply.coords| > 0
        && v'.routeLayer == [rReply.coords]
        && v'.nearLayer == MarkersOf(NearChargers(page.points, page.dist, rReply.coords))
        && v'.nearHeat == HeatFor(page, NearChargers(page.points, page.dist, rReply.coords))
        && v'.msg.km == TotalKm(rReply.distance)
    ensures HighlightsMatch(page, v) ==> HighlightsMatch(page, Routed(page, v, o, d, oReply, dReply, rReply))
  {
    GeocodeBothFacts(v, o, d, oReply, dReply);
    var (v1, oc, dc) := GeocodeBoth(v, o, d, oReply, dReply);
    assert Routed(page, v, o, d, oReply, dReply, rReply) == RequestRoute(page, v1, oc, dc, rReply);
    if oc.Some? && dc.Some? {
      var v2 := v1.(routeRequests := v1.routeRequests + [RequestFor(oc.value, dc.value)]);
      DrawRouteFacts(page, v2, rReply);
      assert HighlightsMatch(page, v) ==> HighlightsMatch(page, v2);
    }
  }

  /** With an origin or destination that is blank after trimming, nothing is
      geocoded or routed and only the message changes. */
  lemma {:induction false} DoRouteNeedsBoth(page: Page, v: PlannerState, originText: string, destText: string,
                         oReply: GeoReply, dReply: GeoReply, rReply: RouteReply)
    requires JsTrim(originText) == "" || JsTrim(destText) == ""
    ensures DoRouteStep(page, v, originText, destText, oReply, dReply, rReply) == v.(msg := NeedBoth)
  {
  }

  /** An origin the geocoder cannot answer for does not stop the destination
      from being asked for. */
  lemma {:induction false} RoutedOriginFailed(page: Page, v: PlannerState, o: string, d: string,
                                              dReply: GeoReply, rReply: RouteReply)
    requires Utf16Length(o) >= 3 && CacheKey(Origin, o) !in v.cache
    requires Utf16Length(d) >= 3 && CacheKey(Destination, d) !in v.cache
    ensures var v' := Routed(page, v, o, d, GeoFailed, dReply, rReply);
      v'.geoQueries == v.geoQueries + [o, d]
      && v'.msg == NotFound && SameLayers(v, v') && v'.routeRequests == v.routeRequests
  {
    assert CacheKey(Origin, o) != CacheKey(Destination, d) by {
      assert CacheKey(Origin, o)[0] == 'o' && CacheKey(Destination, d)[0] == 'd';
    }
    var (v1, oc) := GeocodeFirstStep(v, o, Origin, GeoFailed);
    assert v1 == v.(geoQueries := v.geoQueries + [o]) && oc == None;
    var (v2, dc) := GeocodeFirstStep(v1, d, Destination, dReply);
    assert v2.geoQueries == v1.geoQueries + [d] && SameLayers(v1, v2) && v2.routeRequests == v.routeRequests;
    assert GeocodeBoth(v, o, d, GeoFailed, dReply) == (v2, oc, dc);
  }

  /** Both places are geocoded even when the origin is not found: with neither
      cached, both queries go out, in order, and the message is "Could not
      find...". */
  lemma {:induction false} DoRouteGeocodesBoth(page: Page, v: PlannerState, originText: string, destText: string,
                            dReply: GeoReply, rReply: RouteReply)
    requires var o := JsTrim(originText); Utf16Length(o) >= 3 && CacheKey(Origin, o) !in v.cache
    requires var d := JsTrim(destText); Utf16Length(d) >= 3 && CacheKey(Destination, d) !in v.cache
    ensures var v' := DoRouteStep(page, v, originText, destText, GeoFailed, dReply, rReply);
      v'.geoQueries == v.geoQueries + [JsTrim(originText), JsTrim(destText)]
      && v'.msg == NotFound && SameLayers(v, v') && v'.routeRequests == v.routeRequests
  {
    var o := JsTrim(originText);
    var d := JsTrim(destText);
    assert o != "" && d != "";
    RoutedOriginFailed(page, v.(msg := Finding), o, d, dReply, rReply);
  }

  /** A failure leaves the route and near-charger layers as they were, and a
      route is requested only once both places are found. */
  lemma {:induction false} DoRouteFailureKeepsLayers(page: Page, v: PlannerState, originText: string, destText: string,
                                  oReply: GeoReply, dReply: GeoReply, rReply: RouteReply)
    ensures var v' := DoRouteStep(page, v, originText, destText, oReply, dReply, rReply);
      (v'.msg == NeedBoth || v'.msg == NotFound || v'.msg == Unavailable) ==> SameLayers(v, v')
    ensures var v' := DoRouteStep(page, v, originText, destText, oReply, dReply, rReply);
      v'.msg != NeedBoth && v'.msg != NotFound ==> |v'.routeRequests| == |v.routeRequests| + 1
    ensures var v' := DoRouteStep(page, v, originText, destText, oReply, dReply, rReply);
      v'.msg == NeedBoth || v'.msg == NotFound ==> v'.routeRequests == v.routeRequests
  {
    var o := JsTrim(originText);
    var d := JsTrim(destText);
    if o != "" && d != "" {
      RoutedFacts(page, v.(msg := Finding), o, d, oReply, dReply, rReply);
    }
  }

  /** A found route replaces whatever was drawn: the route layer holds the new
      line only, the chargers near it are exactly the ones marked, in
      `EV_POINTS` order, the heat layer is drawn only when some are near, and
      the message reports the distance in km. */
  lemma {:induction false} DoRouteSuccess(page: Page, v: PlannerState, originText: string, destText: string,
                       oReply: GeoReply, dReply: GeoReply, rReply: RouteReply)
    ensures var v' := DoRouteStep(page, v, originText, destText, oReply, dReply, rReply);
      v'.msg.Found? ==>
        rReply.RouteFound? && |rReply.coords| > 0
        && v'.routeLayer == [rReply.coords]
        && v'.nearLayer == MarkersOf(NearChargers(page.points, page.dist, rReply.coords))
        && (v'.nearHeat.Some? <==> page.heatPlugin && |NearChargers(page.points, page.dist, rReply.coords)| > 0)
        && v'.msg.km == TotalKm(rReply.distance)
  {
    var o := JsTrim(originText);
    var d := JsTrim(destText);
    if o != "" && d != "" {
      RoutedFacts(page, v.(msg := Finding), o, d, oReply, dReply, rReply);
    }
  }

  /** Both handlers keep the layers consistent with the route they show. */
  lemma {:induction false} HandlersKeepHighlightsMatch(page: Page, v: PlannerState, originText: string, destText: string,
                                    oReply: GeoReply, dReply: GeoReply, rReply: RouteReply)
    requires HighlightsMatch(page, v)
    ensures HighlightsMatch(page, DoRouteStep(page, v, originText, destText, oReply, dReply, rReply))
    ensures HighlightsMatch(page, ClearStep(v))
  {
    var o := JsTrim(originText);
    var d := JsTrim(destText);
    if o != "" && d != "" {
      RoutedFacts(page, v.(msg := Finding), o, d, oReply, dReply, rReply);
    }
  }

  /** Nothing passes a test nobody passes. */
  lemma {:induction false} FilterNone<T>(s: seq<T>, keep: T -> bool)
    requires forall x :: x in s ==> !keep(x)
    ensures Filter(s, keep) == []
    decreases |s|
  {
    if |s| > 0 {
      assert forall x :: x in s[..|s| - 1] ==> x in s;
      FilterNone(s[..|s| - 1], keep);
    }
  }

  // ---------------------------------------------------------------------------
  // The page's planner
  // ---------------------------------------------------------------------------

  class RoutePlanner {
    const page: Page
    var cache: map<string, seq<Candidate>>
    var routeLayer: seq<seq<LonLat>>
    var nearLayer: seq<Marker>
    var nearHeat: Option<seq<LatLng>>
    var msg: Message
    ghost var geoQueries: seq<string>
    ghost var routeRequests: seq<RouteRequest>

    ghost function View(): PlannerState
      reads this
    {
      PlannerState(cache, routeLayer, nearLayer, nearHeat, msg, geoQueries, routeRequests)
    }

    /** The planner as `whenMapReady` sets it up: empty cache and layers, no
        heat layer, an empty message. */
    constructor(page: Page)
      ensures this.page == page
      ensures View() == PlannerState(map[], [], [], None, Blank, [], [])
      ensures HighlightsMatch(page, View())
    {
      this.page := page;
      cache, routeLayer, nearLayer, nearHeat, msg := map[], [], [], None, Blank;
      geoQueries, routeRequests := [], [];
    }

    /** `nominatimSuggest`, `reply` being what Nominatim would answer. */
    method Suggest(q: string, w: Which, reply: GeoReply) returns (items: seq<Candidate>)
      modifies this
      ensures (View(), items) == SuggestStep(old(View()), q, w, reply)
    {
      var key := CacheKey(w, q);
      if Utf16Length(q) < 3 {
        return [];
      }
      if key in cache {
        return cache[key];
      }
      geoQueries := geoQueries + [q];
      match reply
      case GeoFailed =>
        items := [];
      case GeoOk(hits) =>
        cache := cache[key := hits];
        items := hits;
    }

    /** `geocodeFirst`. */
    method GeocodeFirst(place: string, w: Which, reply: GeoReply) returns (c: Option<Candidate>)
      modifies this
      ensures (View(), c) == GeocodeFirstStep(old(View()), place, w, reply)
    {
      var key := CacheKey(w, place);
      if key in cache {
        return First(cache[key]);
      }
      var items := Suggest(place, w, reply);
      c := First(items);
    }

    /** `doRoute`, given the values of the two inputs and the replies. */
    method DoRoute(originText: string, destText: string, oReply: GeoReply, dReply: GeoReply, rReply: RouteReply)
      modifies this
      ensures View() == DoRouteStep(page, old(View()), originText, destText, oReply, dReply, rReply)
    {
      msg := Finding;
      var o := JsTrim(originText);
      var d := JsTrim(destText);
      if o == "" || d == "" {
        msg := NeedBoth;
        return;
      }
      Route(o, d, oReply, dReply, rReply);
    }

    /** `doRoute` from the geocoding on. */
    method Route(o: string, d: string, oReply: GeoReply, dReply: GeoReply, rReply: RouteReply)
      modifies this
      ensures View() == Routed(page, old(View()), o, d, oReply, dReply, rReply)
    {
      var oc := GeocodeFirst(o, Origin, oReply);
      var dc := GeocodeFirst(d, Destination, dReply);
      Request(oc, dc, rReply);
    }

    /** The route request, once both places were geocoded. */
    method Request(oc: Option<Candidate>, dc: Option<Candidate>, rReply: RouteReply)
      modifies this
      ensures View() == RequestRoute(page, old(View()), oc, dc, rReply)
    {
      if oc.None? || dc.None? {
        msg := NotFound;
        return;
      }
      routeRequests := routeRequests + [RequestFor(oc.value, dc.value)];
      Draw(rReply);
    }

    /** The part of `doRoute` after the route request. */
    method Draw(rReply: RouteReply)
      modifies this
      ensures View() == DrawRoute(page, old(View()), rReply)
    {
      if rReply.RouteFailed? {
        msg := Unavailable;
        return;
      }
      var coords := rReply.coords;
      var totalKm := TotalKm(rReply.distance);
      routeLayer := [];
      nearLayer := [];
      nearHeat := None;
      routeLayer := routeLayer + [coords];
      if |coords| == 0 {
        // fitBounds throws on the bounds of an empty line
        return;
      }
      var nearPts, markers := HighlightNear(page.points, page.dist, coords);
      nearLayer := nearLayer + markers;
      if |nearPts| > 0 && page.heatPlugin {
        nearHeat := Some(nearPts);
      }
      msg := Found(totalKm);
    }

    /** The Clear button. */
    method Clear()
      modifies this
      ensures View() == ClearStep(old(View()))
    {
      routeLayer := [];
      nearLayer := [];
      nearHeat := None;
      msg := Blank;
    }
  }
}
