# Australian EV charging atlas: record handling and route planners

This project models the decision logic of the two versions of the EV atlas
build script:

- `ss/build_ev_atlas_v6_with_my_updates_.py` (v6);
- `ss/build_ev_atlas_v7_messy.py` (v7).

Each script turns Open Charge Map POIs into site rows, classifies them, and
writes a page that embeds a JavaScript route planner. The model covers:

- **v6 record handling** (`Records6`):
  - state normalisation;
  - the usage and status classifiers;
  - the fast-charger rule;
  - the per-connection aggregation loop of `normalise_ocm`;
  - the status colour;
  - the ordered "by state" line of the summary box.
- **v6 route planner** (`Planner6`):
  - `minDistKm` and the proximity filter over `EV_POINTS`;
  - the suggestion cache behind `nominatimSuggest` and `geocodeFirst`;
  - the `doRoute` and Clear handlers.

  These are modelled as a class, `RoutePlanner`. Its fields are the cache,
  the two layer groups, the heat layer and the message.
- **v7 record handling** (`Records7`):
  - the state replacement and status filling of `normalise_ocm`, including
    the exception it raises on a `null` member (`AttributeError` from
    `.get` on a null object, `TypeError` from iterating a null
    `Connections`) and the `KeyError` on an empty POI list;
  - the coordinate filter of `enrich_dataframe`;
  - the marker colour;
  - the status counts of the snapshot box.
- **v7 route planner** (`Planner7`): `findRoute`, modelled as the class
  `RoutePlanner7`. It covers the sequential geocoding, the route request, the
  coordinate swap, the polyline layers, the gap loop and the single error
  message.

Shared modules:

- `Wrappers` holds `Option` and `Result`.
- `Text` holds the Python and JavaScript string built-ins the scripts rely on:
  - `str.strip`, `String.prototype.trim`, `lower`/`upper` and `in`;
  - `", ".join(sorted(...))`;
  - `f"{n:,}"` and `toFixed(0)`;
  - JavaScript's UTF-16 `length`.
- `Seqs` holds filtering and distinctness.
- `Ocm` holds the shape of a POI as `dict.get` sees it.
- `Geo` holds positions and the replies of Nominatim and OSRM.

The two web services are not modelled. What each request comes back with is a
parameter of the operation that sends it. Ghost logs record what was sent, so
"no request is made" can be stated and proved.

Distances are not modelled either; they are function parameters:

- v6: `dist`, standing for `haversineKm`;
- v7: `segKm`, standing for the planar formula at v7 line 241.

The statements about them hold for any such function.

The class methods are proved against pure step functions. Each method ensures
`View() == Step(old(View()), inputs)`, and the lemmas about the step
functions state what the handlers promise.

Where the source and its evident intent differ, the model follows the source:

- **v6 stray braces:** lines 604, 612 and 616 use single braces inside the
  Python f-string, so as written the v6 file would not run. The model follows
  the JavaScript those lines spell out.
- **"Not Operational":** `classify_status_simple` classifies "Not Operational"
  as operational, because the "operational" test comes first. The
  "not operational" and "planned" tests never change the result: a status
  mentioning "not operational" was already operational, and "planned"
  returns the same "unknown" as the fall-through.
- **v6 state fallback:** `normalise_state` tests and upper-cases the untrimmed
  value in its fallback branch.
- **v6 empty route:** when OSRM returns an empty line, `fitBounds` throws
  after the route layer was rebuilt, so the message stays "Finding route...".
- **v7 gap loop:** the comment at line 236 calls the loop the "longest gap
  without chargers". The loop measures only the distance between consecutive
  route vertices and never looks at chargers. It is modelled as written, and
  `Planner7.ConsecutiveSegmentsOnly` shows that a 400 km stretch made of two
  200 km segments raises no warning.
- **v7 message:** the success message says chargers within 5.0 km are
  highlighted, but v7 draws no charger markers at all. The v7 state has only
  the polyline list and the message.
- **v7 layers:** v7 never removes a polyline, so on a page where
  `window.map` holds the map, routes accumulate on it.
- **v7 map global:** lines 231-232 draw on `window.map`, which nothing in v7
  defines: folium names its map `map_<id>` (the reason v6's `findLeafletMap`
  looks for `map_` keys first). On the page as generated, `addTo` throws
  before any line is added, so every route that geocodes ends in
  "Error finding route.". The planner takes this as the flag `mapGlobal`;
  `Planner7.NoMapGlobalNeverDraws` shows the as-written outcome and
  `Planner7.FindRouteSuccess` and `Planner7.MapGlobalDraws` the intended one.
- **v6 start-up:** `geoCache` is created at line 553 and the input listeners
  are registered before `whenMapReady` creates the layer groups, so
  suggestions may already be cached when the layers exist.
  `Planner6.RoutePlanner.constructor` stands for script start, when the cache
  is empty and no layer holds anything.

## Model

| member | source | states |
|---|---|---|
| `Records6.NormaliseState` | ss/build_ev_atlas_v6_with_my_updates_.py:244-247 | None or "" gives "UNK"; every result is "UNK", one of the eight codes of `ORDER_STATES`, or the input upper-cased when it is at most 4 characters long; no result is longer than 4 (the three branches are pinned by `NormaliseStateKnown`, `NormaliseStateShort` and `NormaliseStateLong`) |
| `Records6.StateCodes` | ss/build_ev_atlas_v6_with_my_updates_.py:232-242 | every value of `STATE_MAP` is one of `ORDER_STATES` |
| `Records6.NormaliseStateKnown` | ss/build_ev_atlas_v6_with_my_updates_.py:244-247 | a state name or abbreviation of `STATE_MAP`, in any letter case and padded with any whitespace, normalises to its code |
| `Records6.NormaliseStateLong` | ss/build_ev_atlas_v6_with_my_updates_.py:247 | an unknown value longer than 4 characters gives "UNK" |
| `Records6.NormaliseStateShort` | ss/build_ev_atlas_v6_with_my_updates_.py:247 | any other non-empty value of at most 4 characters is upper-cased as it stands, untrimmed |
| `Records6.ClassifyUsage` | ss/build_ev_atlas_v6_with_my_updates_.py:249-254 | the result is one of public, private, unknown; None or "" gives unknown |
| `Records6.UsageTiers` | ss/build_ev_atlas_v6_with_my_updates_.py:249-254 | on a non-empty title: public iff it mentions "public"; private iff not public and it mentions "private" or "restricted"; unknown iff none of the three |
| `Records6.UsagePublicWins` | ss/build_ev_atlas_v6_with_my_updates_.py:252-253 | any usage that mentions "public", in any case, is public, whatever else it mentions |
| `Records6.ClassifyStatus` | ss/build_ev_atlas_v6_with_my_updates_.py:256-263 | the result is one of operational, partial, down, unknown; None or "" gives unknown |
| `Records6.StatusTiers` | ss/build_ev_atlas_v6_with_my_updates_.py:256-263 | on a non-empty title: operational iff it mentions "operational"; partial iff not and it mentions "temporarily", "partial" or "limited"; down iff neither and it mentions "faulted" or "down"; unknown iff none of these words |
| `Records6.StatusOperationalWins` | ss/build_ev_atlas_v6_with_my_updates_.py:259 | any status that mentions "operational", in any case, is operational, before the partial and down tests |
| `Records6.ClassifyIgnoresCase` | ss/build_ev_atlas_v6_with_my_updates_.py:249-263 | upper-casing the input changes neither classification |
| `Records6.NotOperationalIsOperational` | ss/build_ev_atlas_v6_with_my_updates_.py:259-261 | "Not Operational" is classified operational, so the "not operational" test is dead |
| `Records6.IsFast` | ss/build_ev_atlas_v6_with_my_updates_.py:269 | a site is fast iff its power is known and at least `FAST_KW` (50); a missing power counts as 0 |
| `Records6.StatusColourDistinct` | ss/build_ev_atlas_v6_with_my_updates_.py:308-309 | the four classes get four different colours; any other key gets the unknown colour |
| `Records6.MaxPowerIsMaximum` | ss/build_ev_atlas_v6_with_my_updates_.py:188-199 | `power_kw` is None iff no non-falsy connection has a parseable power; otherwise it is one of those powers and at least every one of them |
| `Records6.QuantityDefaultsToOne` | ss/build_ev_atlas_v6_with_my_updates_.py:200-204 | when no quantity parses, the total is the number of non-falsy connections: each counts 1 |
| `Records6.TypeTitlesListed` | ss/build_ev_atlas_v6_with_my_updates_.py:205-208 | a title is collected iff it is non-empty and is the connection-type title of some non-falsy connection |
| `Records6.ConnectionTypesSorted` | ss/build_ev_atlas_v6_with_my_updates_.py:218 | the joined titles are strictly sorted by code point, with no duplicates, and hold exactly the collected titles |
| `Records6.AggregateConnections` | ss/build_ev_atlas_v6_with_my_updates_.py:188-220 | the connection loop gives the maximum power, the quantity total (None unless positive) and the sorted distinct titles joined by ", " |
| `Records6.RowsOf` | ss/build_ev_atlas_v6_with_my_updates_.py:210-223 | one row per POI, in order |
| `Records6.NormaliseOcm` | ss/build_ev_atlas_v6_with_my_updates_.py:180-229 | an empty POI list raises `KeyError` at the `dropna` (None); otherwise the table is the POI rows, in order, minus those without both coordinates |
| `Records6.NormaliseOcmKeeps` | ss/build_ev_atlas_v6_with_my_updates_.py:228 | a POI's row is kept iff it has both coordinates |
| `Records6.NormaliseOcmLocated` | ss/build_ev_atlas_v6_with_my_updates_.py:228 | every kept row has both coordinates |
| `Records6.Enrich` | ss/build_ev_atlas_v6_with_my_updates_.py:265-271 | the row is unchanged; the usage and status classes are within their ranges; `is_fast` holds iff the power is at least 50; the state code is at most 4 characters |
| `Records6.ByStateLine` | ss/build_ev_atlas_v6_with_my_updates_.py:335-345 | the two loops build the line the by-state specification describes, for counts with distinct keys |
| `Records6.ListedKeysComplete` | ss/build_ev_atlas_v6_with_my_updates_.py:337-345 | each state with a count appears exactly once, and no other; the line is "By state: n/a" iff there are no counts |
| `Records6.ListedKeysOrder` | ss/build_ev_atlas_v6_with_my_updates_.py:338-344 | the known states come before every other key, in the order of `ORDER_STATES`; the other keys keep the order of the counts |
| `Text.ThousandsRoundTrip` | ss/build_ev_atlas_v6_with_my_updates_.py:276-278 | the comma-grouped count, read back with its commas removed, is the count |
| `Text.ToFixed0Nearest` | ss/build_ev_atlas_v6_with_my_updates_.py:642 | the printed number of km is a numeral within half a unit of the distance |
| `Text.Utf16Length` | ss/build_ev_atlas_v6_with_my_updates_.py:556 | the JavaScript length lies between the number of characters and twice that |
| `Planner6.EvPoints` | ss/build_ev_atlas_v6_with_my_updates_.py:456-466 | one point per located site, in order, with its coordinates and its fast flag |
| `Planner6.MinDistKm` | ss/build_ev_atlas_v6_with_my_updates_.py:542-550 | the loop returns the minimum distance over the vertices, +∞ for none |
| `Planner6.MinDistIsMinimum` | ss/build_ev_atlas_v6_with_my_updates_.py:542-550 | the result is +∞ iff there are no vertices; otherwise it is the distance to some vertex and at most the distance to every vertex |
| `Planner6.NearIffSomeVertex` | ss/build_ev_atlas_v6_with_my_updates_.py:629-630 | a point is within `PROX_KM` (ties included) iff some vertex is within 5 km of it; with no vertex, nothing is near |
| `Planner6.HighlightNear` | ss/build_ev_atlas_v6_with_my_updates_.py:626-636 | `nearPts` and the markers are the near chargers, in `EV_POINTS` order, one marker each, coloured by the fast flag |
| `Planner6.HighlightedSites` | ss/build_ev_atlas_v6_with_my_updates_.py:456-466 | with `EV_POINTS` built from the located, enriched site rows, a charger is highlighted iff some site has its position and fast flag and is within `PROX_KM` of a route vertex |
| `Planner6.NearChargersIff` | ss/build_ev_atlas_v6_with_my_updates_.py:628-631 | a charger is highlighted iff it is in `EV_POINTS` and within `PROX_KM` of the route |
| `Planner6.NearChargersOrder` | ss/build_ev_atlas_v6_with_my_updates_.py:628-636 | highlighting keeps input order: the near chargers of a concatenation are the concatenation of the near chargers |
| `Planner6.TotalKm` | ss/build_ev_atlas_v6_with_my_updates_.py:611 | `totalKm` is the distance in km, or 0 when the distance is missing or 0 |
| `Planner6.MessageTextsDistinct` | ss/build_ev_atlas_v6_with_my_updates_.py:592-616 | the fixed messages are pairwise different texts |
| `Planner6.SuggestFacts` | ss/build_ev_atlas_v6_with_my_updates_.py:554-567 | a query shorter than 3 code units, or one whose trimmed key is cached, sends nothing and changes nothing; otherwise the untrimmed query is sent, a successful list is stored under the trimmed key, and a failure returns [] and stores nothing; layers, message and route log never change |
| `Planner6.SuggestRepeatIsCached` | ss/build_ev_atlas_v6_with_my_updates_.py:555-557 | once a list is stored, the same query, however padded, returns it with no request |
| `Planner6.ShortLabelCachedHit` | ss/build_ev_atlas_v6_with_my_updates_.py:579-583 | `geocodeFirst` checks the cache before any length test, so a short cached place is found with no request |
| `Planner6.GeocodeFirstFacts` | ss/build_ev_atlas_v6_with_my_updates_.py:579-583 | `geocodeFirst` sends at most its own query; a cached key, of any length, is answered with element 0 of its list (none for an empty list) and nothing sent; an uncached short place gives none; an uncached longer one sends the place and gives the first hit of a successful reply; a found place is element 0 of the list cached under its key; the cache only grows |
| `Planner6.GeocodeBothFacts` | ss/build_ev_atlas_v6_with_my_updates_.py:597-598 | geocoding origin and destination changes only the cache and the query log |
| `Planner6.DrawRouteFacts` | ss/build_ev_atlas_v6_with_my_updates_.py:604-642 | a failed route changes only the message, to "Route unavailable..."; a route replaces the route layer with its line; an empty line leaves the message as it was; otherwise the near chargers are marked, the heat layer is set, and the km are reported; the layers stay consistent |
| `Planner6.RoutedFacts` | ss/build_ev_atlas_v6_with_my_updates_.py:597-642 | after geocoding starts: "Could not find" leaves the layers and sends no route request; every other outcome sends exactly one; a found route shows exactly its near chargers |
| `Planner6.DoRouteNeedsBoth` | ss/build_ev_atlas_v6_with_my_updates_.py:593-595 | a blank trimmed origin or destination only sets "Please enter both..." and sends nothing |
| `Planner6.RoutedOriginFailed` | ss/build_ev_atlas_v6_with_my_updates_.py:597-599 | a failed origin still lets the destination be queried; the result is "Could not find..." with the layers untouched |
| `Planner6.DoRouteGeocodesBoth` | ss/build_ev_atlas_v6_with_my_updates_.py:593-599 | with neither place cached, both trimmed queries go out, origin first, even when the origin fails |
| `Planner6.DoRouteFailureKeepsLayers` | ss/build_ev_atlas_v6_with_my_updates_.py:595-616 | every failure message leaves both layers and the heat layer as they were; a route is requested iff both places were found |
| `Planner6.DoRouteSuccess` | ss/build_ev_atlas_v6_with_my_updates_.py:618-642 | a found route clears the old layers, shows the new line only, marks exactly the near chargers, draws the heat layer iff some are near and the plugin is loaded, and reports `totalKm` |
| `Planner6.HandlersKeepHighlightsMatch` | ss/build_ev_atlas_v6_with_my_updates_.py:618-652 | both handlers keep the layers showing either nothing or one route with exactly its near chargers |
| `Planner6.RoutePlanner.constructor` | ss/build_ev_atlas_v6_with_my_updates_.py:553-588 | at script start the cache (created at 553) is empty, and the layers (created at 586-588) are empty, with no heat layer and no message |
| `Planner6.RoutePlanner.Suggest` | ss/build_ev_atlas_v6_with_my_updates_.py:554-567 | `nominatimSuggest` updates the cache and query log as the suggestion step says |
| `Planner6.RoutePlanner.GeocodeFirst` | ss/build_ev_atlas_v6_with_my_updates_.py:579-583 | `geocodeFirst` as the geocoding step says |
| `Planner6.RoutePlanner.DoRoute` | ss/build_ev_atlas_v6_with_my_updates_.py:590-595 | the handler's new state is the `doRoute` step of the old one |
| `Planner6.RoutePlanner.Route` | ss/build_ev_atlas_v6_with_my_updates_.py:597-599 | both geocodings, then the route request |
| `Planner6.RoutePlanner.Request` | ss/build_ev_atlas_v6_with_my_updates_.py:599-616 | "Could not find..." without both places; otherwise one logged request, then the drawing |
| `Planner6.RoutePlanner.Draw` | ss/build_ev_atlas_v6_with_my_updates_.py:618-642 | clearing, redrawing and highlighting as the drawing step says |
| `Planner6.RoutePlanner.Clear` | ss/build_ev_atlas_v6_with_my_updates_.py:646-652 | Clear empties both layers, drops the heat layer and blanks the message; nothing else changes |
| `Geo.SwapAll` | ss/build_ev_atlas_v7_messy.py:229 | each `[lon, lat]` vertex becomes `[lat, lon]`, keeping length and order |
| `Geo.SwapRoundTrip` | ss/build_ev_atlas_v7_messy.py:229 | the swap loses nothing: swapping back gives the GeoJSON vertices |
| `Geo.First` | ss/build_ev_atlas_v7_messy.py:220-221 | the first hit, absent exactly for an empty result |
| `Records7.ReplaceState` | ss/build_ev_atlas_v7_messy.py:82-88 | only the nine exact names are replaced, each by an abbreviation that is not itself replaced; other values are kept |
| `Records7.ReplaceStateIdempotent` | ss/build_ev_atlas_v7_messy.py:82-88 | replacing twice is replacing once |
| `Records7.StateValueFacts` | ss/build_ev_atlas_v7_messy.py:71-88 | a state is stripped, then one of the names (or "W.A.") becomes its abbreviation; any other spelling or case, such as "victoria", is kept as stripped |
| `Records7.StateValueMissing` | ss/build_ev_atlas_v7_messy.py:71 | a missing or null state becomes "" |
| `Records7.FillStatus` | ss/build_ev_atlas_v7_messy.py:89 | a missing status becomes "Unknown"; a present one is kept |
| `Records7.NormalisedErr` | ss/build_ev_atlas_v7_messy.py:63-80 | `normalise_ocm` raises at the first POI that has a null address, usage, status, operator or connections member |
| `Records7.NormalisedOk` | ss/build_ev_atlas_v7_messy.py:63-90 | when it does not raise, no POI has such a member, and there is one row per POI, in order |
| `Records7.NormalisedTable` | ss/build_ev_atlas_v7_messy.py:63-90 | an empty POI list raises `KeyError` at `df["state"]`; otherwise the first POI with a null member raises; without one, there is one row per POI, in order |
| `Records7.NormalisedNoRaise` | ss/build_ev_atlas_v7_messy.py:63-80 | with no null member the row loop does not raise |
| `Records7.NormaliseOcm` | ss/build_ev_atlas_v7_messy.py:63-90 | the loop and the column steps give `NormalisedTable`: the table, the index of the POI at which it raises, or the `KeyError` of an empty list |
| `Records7.EnrichKeeps` | ss/build_ev_atlas_v7_messy.py:93-94 | `enrich_dataframe` keeps exactly the rows with both coordinates, unchanged |
| `Records7.StatusColour` | ss/build_ev_atlas_v7_messy.py:109-115 | the colour is one of four: green iff the status mentions "operational"; orange iff not, and it mentions "partial"; red iff neither, and it mentions "down"; gray iff none of the three |
| `Records7.StatusColourIgnoresCase` | ss/build_ev_atlas_v7_messy.py:110-114 | upper-casing a status does not change its colour |
| `Records7.CountMentions` | ss/build_ev_atlas_v7_messy.py:132-134 | a count never exceeds the number of rows |
| `Records7.Summary` | ss/build_ev_atlas_v7_messy.py:130-153 | an empty table raises `ZeroDivisionError` in the percentages; otherwise the four counts add up to the total |
| `Records7.CountsAreSumOfMatches` | ss/build_ev_atlas_v7_messy.py:132-135 | the three counts add up the words each row mentions, so one row can be counted more than once |
| `Records7.UnknownIsGrayWhenExclusive` | ss/build_ev_atlas_v7_messy.py:108-135 | when no status mentions two of the words, "unknown" is the number of gray markers |
| `Records7.DoubleCountedStatus` | ss/build_ev_atlas_v7_messy.py:132-135 | a status that mentions two of the words alone makes "unknown" negative |
| `Records7.PartiallyOperationalDoubleCounted` | ss/build_ev_atlas_v7_messy.py:132-133 | "Partially Operational" mentions both "partial" and "operational" |
| `Records7.ColourSummary` | ss/build_ev_atlas_v7_messy.py:108-115 | counting by marker colour fails only on an empty table |
| `Records7.ColourSummaryPartitions` | ss/build_ev_atlas_v7_messy.py:108-135 | counted by colour, the four numbers are non-negative and add up to the total |
| `Records7.SummariesAgreeWhenExclusive` | ss/build_ev_atlas_v7_messy.py:130-135 | on statuses that mention at most one word, the two ways of counting agree |
| `Planner7.GapLoop` | ss/build_ev_atlas_v7_messy.py:237-244 | the loop, with `lastIdx` always `i - 1`, leaves the gap that `MaxGap` defines over consecutive segments |
| `Planner7.MaxGapFacts` | ss/build_ev_atlas_v7_messy.py:237-244 | `maxGap` is 0 or above `CHARGER_GAP_KM`; when positive it is the length of some segment; it is at least every segment above the threshold |
| `Planner7.WarnsIffLongSegment` | ss/build_ev_atlas_v7_messy.py:242-247 | the warning is due iff some single consecutive segment exceeds 300 km, and then `maxGap` is the longest segment |
| `Planner7.ShortRouteNeverWarns` | ss/build_ev_atlas_v7_messy.py:237-247 | a route of fewer than two vertices never warns |
| `Planner7.ConsecutiveSegmentsOnly` | ss/build_ev_atlas_v7_messy.py:236-244 | two 200 km segments total more than 300 km yet give no warning: only consecutive vertices are compared |
| `Planner7.KmOf` | ss/build_ev_atlas_v7_messy.py:230 | `distance_km` exists iff OSRM gave a distance, and is that distance in km |
| `Planner7.Warning` | ss/build_ev_atlas_v7_messy.py:245-246 | a warning is appended iff `maxGap` exceeds 300, and it reports `maxGap` |
| `Planner7.FailedTextDistinct` | ss/build_ev_atlas_v7_messy.py:233-249 | no other message reads "Error finding route." |
| `Planner7.GeoQuery` | ss/build_ev_atlas_v7_messy.py:218 | the query is the untrimmed input followed by ", Australia" |
| `Planner7.GeoStepFacts` | ss/build_ev_atlas_v7_messy.py:217-222 | one request, exactly the input with ", Australia"; a place iff the reply is a non-empty list, and then its first hit; nothing else changes |
| `Planner7.GeocodeBoth7Facts` | ss/build_ev_atlas_v7_messy.py:223-224 | a failed origin means the destination is never queried; both places are found iff both replies are usable |
| `Planner7.DrawRoute7Facts` | ss/build_ev_atlas_v7_messy.py:227-247 | no route, or no map in `window.map`, gives the error message and no layer; otherwise the route adds its swapped line after the earlier ones; the error shows iff there was no route, no map global or the line is empty; otherwise the distance and the gap warning |
| `Planner7.FindRouteFunnel` | ss/build_ev_atlas_v7_messy.py:215-250 | the handler ends with "Error finding route." iff a place, the route, the map global or a non-empty line is missing, and otherwise with the found message; never with "Finding route..." |
| `Planner7.FindRouteOriginFailed` | ss/build_ev_atlas_v7_messy.py:223-224 | an origin that is not found sends exactly one query, no route request, adds no line, and shows the error |
| `Planner7.FindRouteAppendOnly` | ss/build_ev_atlas_v7_messy.py:231 | earlier polylines are never removed, and at most one is added per call |
| `Planner7.NoMapGlobalNeverDraws` | ss/build_ev_atlas_v7_messy.py:231-232 | without a map in `window.map`, every call ends with "Error finding route." and adds no polyline, whatever the services answer |
| `Planner7.MapGlobalDraws` | ss/build_ev_atlas_v7_messy.py:223-247 | with the map global, two usable places and a non-empty route always give the found message and the drawn line |
| `Planner7.FindRouteSuccess` | ss/build_ev_atlas_v7_messy.py:223-247 | a found route needs the map global; it sent both queries and one request between the first hits, added the swapped line, reports the km, and warns iff some segment of the drawn line exceeds 300 km, giving the longest one |
| `Planner7.RoutePlanner7.constructor` | ss/build_ev_atlas_v7_messy.py:207 | the page starts with no line and an empty message, and records whether `window.map` holds the map |
| `Planner7.RoutePlanner7.Geo` | ss/build_ev_atlas_v7_messy.py:217-222 | `geo(q)` as the geocoding step says |
| `Planner7.RoutePlanner7.FindRoute` | ss/build_ev_atlas_v7_messy.py:211-251 | the handler's new state is the `findRoute` step of the old one |
| `Planner7.RoutePlanner7.Draw` | ss/build_ev_atlas_v7_messy.py:226-247 | drawing, the message and the appended warning as the drawing step says |

## Left out

- Fetching from Open Charge Map, Nominatim and OSRM, and `response.json()`
  parsing: each request's outcome is an input.
- pandas and numpy mechanics, the CSV snapshot and backup, timestamps and
  directories: I/O and library wrappers.
- Rendering: folium, Leaflet and branca markup, popups, the snapshot and
  how-to boxes, `populateDatalist`, `findLeafletMap`, `placePanel`, and the
  `whenMapReady` polling with its "Map not ready" message.
  - The model assumes v6's `#route-msg` and v7's `#routeMsg` exist. v7's
    `window.map` is the flag `mapGlobal`; v6 finds its map through
    `findLeafletMap`, assumed to succeed.
- `EV_POINTS` is the `points` field of the v6 page, an input of the
  planner; `Planner6.HighlightedSites` states what highlighting means when
  it is built by `Planner6.EvPoints` from the enriched rows.
  - A message is its datatype value; this is the text `textContent` or
    `innerHTML` would hold, not the serialised DOM.
- Floating-point numerics: `haversineKm` and the v7 planar formula are
  abstract distance functions.
  - `toFixed(0)` is modelled on reals, with no `NaN` or infinity except the
    v7 missing distance.
  - The `:.0%` percentages and v7's `np.nanmean`/`np.nansum` power and
    quantity columns are left out.
- `debounce`, and overlapping or interleaved handler calls: timing and
  concurrency. Each handler runs to completion here, as the source has no
  request tokens.
- The v7 `connection_types` column, and the exceptions individual v7
  connection elements can raise (`c["ConnectionType"]["Title"]`): only a
  `null` `Connections` member is modelled as raising.
- v7 `lat`/`lon` are taken as already numeric, since v7 does not coerce
  them.
- The v6 status counts, percentages and popup of `build_map`, and the v7
  `state_counts` join in the snapshot box: display-only formatting.
- The order of `value_counts()` is an input to the by-state line, not
  computed.
- Case mapping covers ASCII letters only; Python's and JavaScript's full
  Unicode case tables are not modelled.

## Findings

| source | as written | input that shows it | evidently intended | confidence | as-written member | corrected member |
|---|---|---|---|---|---|---|
| ss/build_ev_atlas_v7_messy.py:132-135 | the operational, partial and down counts are independent substring matches, and `unknown = total - (operational + partial + down)` | a single row with status "Partially Operational" gives partial 1, operational 1, unknown -1, and a -100% share in the box | each site counted once, in the class its marker colour shows, so that the four numbers partition the total | medium, not executed | `Records7.DoubleCountedStatus` | `Records7.ColourSummaryPartitions` |
| ss/build_ev_atlas_v7_messy.py:231-232 | the route line is added with `addTo(window.map)` and framed with `window.map.fitBounds`, but v7 never defines `window.map`; folium's map is the global `map_<id>` | any origin and destination that geocode, with a route found: `addTo(undefined)` throws, and the message is "Error finding route." with no line drawn | the route drawn on folium's map, the message showing its length and any gap warning | plausible, not executed | `Planner7.NoMapGlobalNeverDraws` | `Planner7.MapGlobalDraws` |
