/** The data side of the v6 build script: flattening Open Charge Map POIs into
    site rows, the simple usage/status/fast/state classifications added to
    each row, the marker colour of a status, and the per-state line of the
    snapshot box. */
module Records6 {
  import opened Wrappers
  import opened Text
  import opened Seqs
  import opened Ocm

  /** Sites at or above this many kW count as fast chargers. */
  const FAST_KW: real := 50.0

  /** Lower-cased state names and abbreviations, and what they normalise to. */
  const STATE_MAP: map<string, string> := map[
    "new south wales" := "NSW", "nsw" := "NSW",
    "victoria" := "VIC", "vic" := "VIC",
    "queensland" := "QLD", "qld" := "QLD",
    "south australia" := "SA", "sa" := "SA",
    "western australia" := "WA", "wa" := "WA",
    "tasmania" := "TAS", "tas" := "TAS",
    "northern territory" := "NT", "nt" := "NT",
    "australian capital territory" := "ACT", "act" := "ACT"]

  /** The order in which states are listed in the snapshot box. */
  const ORDER_STATES: seq<string> := ["NSW", "VIC", "QLD", "WA", "SA", "TAS", "ACT", "NT"]

  /** Marker colours by simple status. */
  const COL_STATUS: map<string, string> := map[
    "operational" := "#16a34a", "partial" := "#f59e0b",
    "down" := "#ef4444", "unknown" := "#6b7280"]

  // ---------------------------------------------------------------------------
  // State names
  // ---------------------------------------------------------------------------

  /** `normalise_state`: a known name or abbreviation, in any case and with any
      surrounding whitespace, becomes the state code; another short value is
      upper-cased as it stands (untrimmed); anything else is "UNK". */
  function NormaliseState(s: Option<string>): (r: string)
    ensures s == None || s == Some("") ==> r == "UNK"
    ensures r == "UNK" || r in ORDER_STATES || (s.Some? && |s.value| <= 4 && r == Upper(s.value))
    ensures |r| <= 4
  {
    if s.None? || s.value == "" then "UNK"
    else
      var key := Lower(PyStrip(s.value));
      if key in STATE_MAP then StateCodes(key); STATE_MAP[key]
      else if |s.value| <= 4 then Upper(s.value)
      else "UNK"
  }

  /** The state table only yields the codes of the fixed order. */
  lemma StateCodes(k: string)
    requires k in STATE_MAP
    ensures STATE_MAP[k] in ORDER_STATES && |STATE_MAP[k]| <= 3
  {
  }

  /** Every key of the state table is non-empty and starts and ends with a
      lower-case letter, so it has no surrounding whitespace. */
  lemma StateKeysUnpadded(k: string)
    requires k in STATE_MAP
    ensures |k| > 0 && Unpadded(k, PySpace)
  {
    assert |k| > 0 && 'a' <= k[0] <= 'z' && 'a' <= k[|k| - 1] <= 'z';
  }

  /** Whatever whitespace pads it and however it is cased, a known state name
      or abbreviation normalises to its state code. */
  lemma NormaliseStateKnown(w1: string, v: string, w2: string)
    requires AllSpace(w1, PySpace) && AllSpace(w2, PySpace)
    requires Lower(v) in STATE_MAP
    ensures NormaliseState(Some(w1 + v + w2)) == STATE_MAP[Lower(v)]
    ensures NormaliseState(Some(w1 + v + w2)) in ORDER_STATES
  {
    var k := Lower(v);
    StateKeysUnpadded(k);
    LowerKeepsSpace(v[0], PySpace);
    LowerKeepsSpace(v[|v| - 1], PySpace);
    assert Unpadded(v, PySpace);
    TrimPadded(w1, v, w2, PySpace);
    assert |w1 + v + w2| > 0;
  }

  /** A value that is neither a known name nor short is "UNK", even when it is
      a longer spelling such as "Victoria, Australia". */
  lemma NormaliseStateLong(s: string)
    requires Lower(PyStrip(s)) !in STATE_MAP && |s| > 4
    ensures NormaliseState(Some(s)) == "UNK"
  {
  }

  /** Any other value of at most four characters is upper-cased as it stands,
      its padding included. */
  lemma NormaliseStateShort(s: string)
    requires s != "" && Lower(PyStrip(s)) !in STATE_MAP && |s| <= 4
    ensures NormaliseState(Some(s)) == Upper(s)
  {
  }

  // ---------------------------------------------------------------------------
  // Usage and status classification
  // ---------------------------------------------------------------------------

  /** `classify_usage_simple`: "public" wins over "private"/"restricted",
      compared case-insensitively. */
  function ClassifyUsage(usage: Option<string>): (r: string)
    ensures r == "public" || r == "private" || r == "unknown"
    ensures usage == None || usage == Some("") ==> r == "unknown"
  {
    if usage.None? || usage.value == "" then "unknown"
    else
      var u := Lower(usage.value);
      if Contains(u, "public") then "public"
      else if Contains(u, "private") || Contains(u, "restricted") then "private"
      else "unknown"
  }

  /** `classify_status_simple`: "operational" is checked first, so a status
      such as "Not Operational" is classified as operational and the later
      "not operational" and "planned" tests never decide anything. */
  function ClassifyStatus(status: Option<string>): (r: string)
    ensures r == "operational" || r == "partial" || r == "down" || r == "unknown"
    ensures status == None || status == Some("") ==> r == "unknown"
  {
    if status.None? || status.value == "" then "unknown"
    else
      var s := Lower(status.value);
      if Contains(s, "operational") then "operational"
      else if Contains(s, "temporarily") || Contains(s, "partial") || Contains(s, "limited") then "partial"
      else if Contains(s, "faulted") || Contains(s, "down") || Contains(s, "not operational") then "down"
      else if Contains(s, "planned") then "unknown"
      else "unknown"
  }

  /** Any usage title mentioning "public", in any case, is public. */
  lemma UsagePublicWins(a: string, t: string, b: string)
    requires Lower(t) == "public"
    ensures ClassifyUsage(Some(a + t + b)) == "public"
  {
    LowerContainsInfix(a, t, b);
  }

  /** Any status title mentioning "operational", in any case, is operational;
      "Not Operational" and "Planned - not operational" included. */
  lemma StatusOperationalWins(a: string, t: string, b: string)
    requires Lower(t) == "operational"
    ensures ClassifyStatus(Some(a + t + b)) == "operational"
  {
    LowerContainsInfix(a, t, b);
  }

  /** Both classifications ignore case. */
  lemma ClassifyIgnoresCase(s: string)
    ensures ClassifyUsage(Some(Upper(s))) == ClassifyUsage(Some(s))
    ensures ClassifyStatus(Some(Upper(s))) == ClassifyStatus(Some(s))
  {
    LowerUpper(s);
  }

  /** Open Charge Map's "Not Operational" status is classified as operational. */
  lemma NotOperationalIsOperational()
    ensures ClassifyStatus(Some("Not Operational")) == "operational"
  {
    StatusOperationalWins("Not ", "Operational", "");
    assert "Not Operational" == "Not " + "Operational" + "";
  }

  /** The full priority order of `classify_usage_simple` on a non-empty
      title: "public" first, then "private" or "restricted", else "unknown". */
  lemma UsageTiers(u: string)
    requires u != ""
    ensures ClassifyUsage(Some(u)) == "public" <==> Contains(Lower(u), "public")
    ensures ClassifyUsage(Some(u)) == "private" <==>
      !Contains(Lower(u), "public") && (Contains(Lower(u), "private") || Contains(Lower(u), "restricted"))
    ensures ClassifyUsage(Some(u)) == "unknown" <==>
      !Contains(Lower(u), "public") && !Contains(Lower(u), "private") && !Contains(Lower(u), "restricted")
  {
  }

  /** The full priority order of `classify_status_simple` on a non-empty
      title: "operational", then "temporarily"/"partial"/"limited", then
      "faulted"/"down", else "unknown". A status mentioning "not operational"
      mentions "operational", so that test adds nothing to the "down" tier. */
  lemma StatusTiers(s: string)
    requires s != ""
    ensures ClassifyStatus(Some(s)) == "operational" <==> Contains(Lower(s), "operational")
    ensures ClassifyStatus(Some(s)) == "partial" <==>
      !Contains(Lower(s), "operational")
      && (Contains(Lower(s), "temporarily") || Contains(Lower(s), "partial") || Contains(Lower(s), "limited"))
    ensures ClassifyStatus(Some(s)) == "down" <==>
      !Contains(Lower(s), "operational")
      && !Contains(Lower(s), "temporarily") && !Contains(Lower(s), "partial") && !Contains(Lower(s), "limited")
      && (Contains(Lower(s), "faulted") || Contains(Lower(s), "down"))
    ensures ClassifyStatus(Some(s)) == "unknown" <==>
      !Contains(Lower(s), "operational")
      && !Contains(Lower(s), "temporarily") && !Contains(Lower(s), "partial") && !Contains(Lower(s), "limited")
      && !Contains(Lower(s), "faulted") && !Contains(Lower(s), "down")
  {
    if Contains(Lower(s), "not operational") {
      assert "not operational" == "not " + "operational";
      ContainsSuffix(Lower(s), "not ", "operational");
    }
  }

  /** `is_fast`: a missing power counts as 0 kW. */
  function IsFast(powerKw: Option<real>): (r: bool)
    ensures r <==> powerKw.Some? && powerKw.value >= FAST_KW
  {
    powerKw.GetOr(0.0) >= FAST_KW
  }

  /** `status_color`: an empty or unrecognised status gets the unknown colour. */
  function StatusColour(simple: string): (r: string)
    ensures r in COL_STATUS.Values
  {
    var k := if simple == "" then "unknown" else simple;
    if k in COL_STATUS then COL_STATUS[k] else COL_STATUS["unknown"]
  }

  /** The four simple statuses get four different colours, and every other
      value gets the colour of "unknown". */
  lemma StatusColourDistinct(s: string)
    ensures StatusColour("operational") != StatusColour("partial")
    ensures StatusColour("operational") != StatusColour("down")
    ensures StatusColour("operational") != StatusColour("unknown")
    ensures StatusColour("partial") != StatusColour("down")
    ensures StatusColour("partial") != StatusColour("unknown")
    ensures StatusColour("down") != StatusColour("unknown")
    ensures s !in COL_STATUS ==> StatusColour(s) == StatusColour("unknown")
  {
  }

  // ---------------------------------------------------------------------------
  // Connections of one POI
  // ---------------------------------------------------------------------------

  /** The power of one connection: `PowerKW` when the key is there (even if
      null), `ConnectionPowerKW` otherwise; a null or non-numeric value gives
      none. */
  function PowerOf(c: Connection): Option<real> {
    var pw := if c.powerKW.NoKey? then c.connectionPowerKW else c.powerKW;
    if pw.Num? then Some(pw.value) else None
  }

  /** The number of ports of one connection: the `Quantity` when it converts,
      1 when it is missing, null or not a number. */
  function QuantityOf(c: Connection): int {
    if c.quantity.Num? then c.quantity.value else 1
  }

  /** The connection type title, "" when there is none. */
  function TypeTitleOf(c: Connection): string {
    match c.connectionType
    case Some(t) => t.title.GetOr("")
    case None => ""
  }

  /** The largest power among the connections, if any has one. */
  function MaxPower(cs: seq<ConnEntry>): Option<real>
    decreases |cs|
  {
    if |cs| == 0 then None
    else
      var m := MaxPower(cs[..|cs| - 1]);
      var e := cs[|cs| - 1];
      if e.Falsy? then m
      else match PowerOf(e.conn)
        case None => m
        case Some(p) => if m.None? || p > m.value then Some(p) else m
  }

  /** The sum of the port counts of the non-empty connections. */
  function TotalQuantity(cs: seq<ConnEntry>): int
    decreases |cs|
  {
    if |cs| == 0 then 0
    else
      var e := cs[|cs| - 1];
      TotalQuantity(cs[..|cs| - 1]) + (if e.Falsy? then 0 else QuantityOf(e.conn))
  }

  /** The non-empty connection type titles, in connection order. */
  function TypeTitles(cs: seq<ConnEntry>): seq<string>
    decreases |cs|
  {
    if |cs| == 0 then []
    else
      var e := cs[|cs| - 1];
      TypeTitles(cs[..|cs| - 1]) + (if e.Entry? && TypeTitleOf(e.conn) != "" then [TypeTitleOf(e.conn)] else [])
  }

  ghost predicate HasPower(cs: seq<ConnEntry>, i: int, p: real) {
    0 <= i < |cs| && cs[i].Entry? && PowerOf(cs[i].conn) == Some(p)
  }

  /** `MaxPower` is the maximum of the connection powers: there is none exactly
      when no connection has a power, it is one of them, and it bounds them all. */
  lemma {:induction false} MaxPowerIsMaximum(cs: seq<ConnEntry>)
    ensures MaxPower(cs).None? <==> forall i, p :: !HasPower(cs, i, p)
    ensures MaxPower(cs).Some? ==> exists i :: HasPower(cs, i, MaxPower(cs).value)
    ensures forall i, p :: HasPower(cs, i, p) ==> MaxPower(cs).Some? && p <= MaxPower(cs).value
    decreases |cs|
  {
    if |cs| > 0 {
      var init := cs[..|cs| - 1];
      var n := |cs| - 1;
      MaxPowerIsMaximum(init);
      assert forall i, p :: 0 <= i < n ==> (HasPower(cs, i, p) <==> HasPower(init, i, p));
      if MaxPower(init).Some? {
        var j :| HasPower(init, j, MaxPower(init).value);
        assert HasPower(cs, j, MaxPower(init).value);
      }
      if cs[n].Entry? && PowerOf(cs[n].conn).Some? {
        assert HasPower(cs, n, PowerOf(cs[n].conn).value);
      }
    }
  }

  /** When no connection gives an explicit quantity, every non-empty
      connection counts as one port. */
  lemma {:induction false} QuantityDefaultsToOne(cs: seq<ConnEntry>)
    requires forall i :: 0 <= i < |cs| && cs[i].Entry? ==> !cs[i].conn.quantity.Num?
    ensures TotalQuantity(cs) == |Filter(cs, IsEntry)|
    decreases |cs|
  {
    if |cs| > 0 {
      QuantityDefaultsToOne(cs[..|cs| - 1]);
    }
  }

  predicate IsEntry(e: ConnEntry) { e.Entry? }

  /** The listed titles are exactly the non-empty titles of the connections. */
  lemma {:induction false} TypeTitlesListed(cs: seq<ConnEntry>, t: string)
    ensures t in TypeTitles(cs) <==> t != "" && exists i :: 0 <= i < |cs| && cs[i].Entry? && TypeTitleOf(cs[i].conn) == t
    decreases |cs|
  {
    if |cs| > 0 {
      var init := cs[..|cs| - 1];
      TypeTitlesListed(init, t);
      if t in TypeTitles(cs) && t !in TypeTitles(init) {
        assert cs[|cs| - 1].Entry? && TypeTitleOf(cs[|cs| - 1].conn) == t;
      }
      if t != "" && t !in TypeTitles(init) && exists i :: 0 <= i < |cs| && cs[i].Entry? && TypeTitleOf(cs[i].conn) == t {
        assert forall i :: 0 <= i < |cs| - 1 ==> init[i] == cs[i];
      }
    }
  }

  /** The connection types cell lists each distinct non-empty title once, in
      ascending order. */
  lemma ConnectionTypesSorted(cs: seq<ConnEntry>, t: string)
    ensures StrictlySorted(SortedDistinct(TypeTitles(cs)))
    ensures t in SortedDistinct(TypeTitles(cs)) <==>
      t != "" && exists i :: 0 <= i < |cs| && cs[i].Entry? && TypeTitleOf(cs[i].conn) == t
  {
    SortedDistinctSpec(TypeTitles(cs));
    TypeTitlesListed(cs, t);
    assert t in SortedDistinct(TypeTitles(cs)) <==> t in Elems(SortedDistinct(TypeTitles(cs)));
  }

  /** The connection loop of `normalise_ocm`: the largest power, the total
      port count (none unless positive) and the sorted distinct connection
      type titles joined by ", ". */
  method AggregateConnections(conns: seq<ConnEntry>)
    returns (powerKw: Option<real>, quantity: Option<int>, connectionTypes: string)
    ensures powerKw == MaxPower(conns)
    ensures quantity == (if TotalQuantity(conns) > 0 then Some(TotalQuantity(conns)) else None)
    ensures connectionTypes == Join(SortedDistinct(TypeTitles(conns)), ", ")
  {
    var maxPower: Option<real> := None;
    var totalQ := 0;
    var connTitles: seq<string> := [];
    var i := 0;
    while i < |conns|
      invariant 0 <= i <= |conns|
      invariant maxPower == MaxPower(conns[..i])
      invariant totalQ == TotalQuantity(conns[..i])
      invariant connTitles == SortedDistinct(TypeTitles(conns[..i]))
    {
      var c := conns[i];
      assert conns[..i + 1][..i] == conns[..i];
      assert conns[..i + 1][i] == c;
      if c.Entry? {
        var pw := PowerOf(c.conn);
        if pw.Some? && (maxPower.None? || pw.value > maxPower.value) {
          maxPower := pw;
        }
        totalQ := totalQ + QuantityOf(c.conn);
        var title := TypeTitleOf(c.conn);
        if title != "" {
          var l := TypeTitles(conns[..i]);
          assert TypeTitles(conns[..i + 1]) == l + [title];
          assert (l + [title])[..|l|] == l;
          assert SortedDistinct(l + [title]) == Insert(SortedDistinct(l), title);
          connTitles := Insert(connTitles, title);
        } else {
          assert TypeTitles(conns[..i + 1]) == TypeTitles(conns[..i]);
        }
      } else {
        assert TypeTitles(conns[..i + 1]) == TypeTitles(conns[..i]);
      }
      i := i + 1;
    }
    assert conns[..i] == conns;
    powerKw := maxPower;
    quantity := if totalQ > 0 then Some(totalQ) else None;
    connectionTypes := if |connTitles| > 0 then Join(connTitles, ", ") else "";
  }

  // ---------------------------------------------------------------------------
  // Site rows
  // ---------------------------------------------------------------------------

  /** One row of the sites table built by `normalise_ocm`. */
  datatype SiteRow = SiteRow(
    id: Option<int>,
    title: Option<string>,
    town: Option<string>,
    state: Option<string>,
    usageType: Option<string>,
    status: Option<string>,
    operator: Option<string>,
    connectionTypes: string,
    powerKw: Option<real>,
    quantity: Option<int>,
    lat: Option<real>,
    lon: Option<real>)

  /** `p.get("AddressInfo") or {}`. */
  function AddressOf(p: Poi): Address {
    if p.address.Present? then p.address.value else Address(None, None, None, None, None)
  }

  /** `p.get("Connections") or []`. */
  function ConnectionsOf(p: Poi): seq<ConnEntry> {
    if p.connections.Present? then p.connections.value else []
  }

  /** The row a POI contributes. */
  function RowOf(p: Poi): SiteRow {
    var a := AddressOf(p);
    var cs := ConnectionsOf(p);
    var q := TotalQuantity(cs);
    SiteRow(p.id, a.title, a.town, a.state,
      TitleOf(p.usageType), TitleOf(p.statusType), TitleOf(p.operatorInfo),
      Join(SortedDistinct(TypeTitles(cs)), ", "), MaxPower(cs),
      if q > 0 then Some(q) else None, a.lat, a.lon)
  }

  function RowsOf(pois: seq<Poi>): (rows: seq<SiteRow>)
    ensures |rows| == |pois|
    ensures forall i :: 0 <= i < |pois| ==> rows[i] == RowOf(pois[i])
  {
    seq(|pois|, i requires 0 <= i < |pois| => RowOf(pois[i]))
  }

  lemma RowsOfSnoc(pois: seq<Poi>, i: nat)
    requires i < |pois|
    ensures RowsOf(pois[..i + 1]) == RowsOf(pois[..i]) + [RowOf(pois[i])]
  {
  }

  predicate Located(r: SiteRow) { r.lat.Some? && r.lon.Some? }

  /** `normalise_ocm`: one row per POI, then the rows without both coordinates
      dropped, the others kept in order. An empty POI list builds a table with
      no columns, on which dropping by "lat" and "lon" raises `KeyError`
      (`None` here). */
  method NormaliseOcm(pois: seq<Poi>) returns (df: Option<seq<SiteRow>>)
    ensures df.None? <==> |pois| == 0
    ensures df.Some? ==> df.value == Filter(RowsOf(pois), Located)
  {
    var rows: seq<SiteRow> := [];
    var i := 0;
    while i < |pois|
      invariant 0 <= i <= |pois|
      invariant rows == RowsOf(pois[..i])
    {
      var p := pois[i];
      var a := AddressOf(p);
      var powerKw, quantity, connectionTypes := AggregateConnections(ConnectionsOf(p));
      var row := SiteRow(p.id, a.title, a.town, a.state,
        TitleOf(p.usageType), TitleOf(p.statusType), TitleOf(p.operatorInfo),
        connectionTypes, powerKw, quantity, a.lat, a.lon);
      assert row == RowOf(p);
      RowsOfSnoc(pois, i);
      rows := rows + [row];
      i := i + 1;
    }
    assert pois[..i] == pois;
    if |rows| == 0 {
      return None;
    }
    df := Some(Filter(rows, Located));
  }

  /** A POI's row is in the table exactly when it has both coordinates. */
  lemma NormaliseOcmKeeps(pois: seq<Poi>, p: Poi)
    requires p in pois
    ensures RowOf(p) in Filter(RowsOf(pois), Located) <==> Located(RowOf(p))
  {
    FilterMembership(RowsOf(pois), Located, RowOf(p));
    var i :| 0 <= i < |pois| && pois[i] == p;
    assert RowsOf(pois)[i] == RowOf(p);
  }

  /** Every row of the table has both coordinates. */
  lemma NormaliseOcmLocated(pois: seq<Poi>, r: SiteRow)
    requires r in Filter(RowsOf(pois), Located)
    ensures Located(r) && r.lat.Some? && r.lon.Some?
  {
    FilterMembership(RowsOf(pois), Located, r);
  }

  /** A row with the columns `enrich_dataframe` adds. */
  datatype Site = Site(row: SiteRow, usageSimple: string, statusSimple: string, isFast: bool, stateAbbrev: string)

  /** `enrich_dataframe` on one row. */
  function Enrich(r: SiteRow): (e: Site)
    ensures e.row == r
    ensures e.usageSimple in {"public", "private", "unknown"}
    ensures e.statusSimple in {"operational", "partial", "down", "unknown"}
    ensures e.isFast <==> r.powerKw.Some? && r.powerKw.value >= FAST_KW
    ensures |e.stateAbbrev| <= 4
  {
    Site(r, ClassifyUsage(r.usageType), ClassifyStatus(r.status), IsFast(r.powerKw), NormaliseState(r.state))
  }

  // ---------------------------------------------------------------------------
  // The per-state line of the snapshot box
  // ---------------------------------------------------------------------------

  /** `state_counts` as `(key, count)` pairs in dictionary order. */
  type Counts = seq<(string, nat)>

  function KeysOf(counts: Counts): (ks: seq<string>)
    ensures |ks| == |counts|
    ensures forall i :: 0 <= i < |counts| ==> ks[i] == counts[i].0
  {
    seq(|counts|, i requires 0 <= i < |counts| => counts[i].0)
  }

  /** The count recorded for `k` (0 when there is none). */
  function CountOf(counts: Counts, k: string): nat
    decreases |counts|
  {
    if |counts| == 0 then 0
    else if counts[0].0 == k then counts[0].1
    else CountOf(counts[1..], k)
  }

  lemma {:induction false} CountOfDistinct(counts: Counts, j: nat)
    requires Distinct(KeysOf(counts)) && j < |counts|
    ensures CountOf(counts, counts[j].0) == counts[j].1
    decreases j
  {
    if j > 0 {
      assert KeysOf(counts)[0] != KeysOf(counts)[j];
      assert KeysOf(counts[1..]) == KeysOf(counts)[1..];
      CountOfDistinct(counts[1..], j - 1);
    }
  }

  const BY_STATE_SEP: string := "\U{B7}"
  const BY_STATE_NA: string := "By state: n/a"

  /** `f"{abbr} <b>{thousands(n)}</b>"`. */
  function StatePart(k: string, n: nat): string {
    k + " <b>" + Thousands(n) + "</b>"
  }

  function KnownTest(counts: Counts): string -> bool {
    k => k in KeysOf(counts)
  }

  predicate IsOther(k: string) { k !in ORDER_STATES }

  /** The order in which states are listed: those of `ORDER_STATES` that have
      a count, in that order, then the other keys in dictionary order. */
  function ListedKeys(counts: Counts): seq<string> {
    Filter(ORDER_STATES, KnownTest(counts)) + Filter(KeysOf(counts), IsOther)
  }

  function PartsFor(keys: seq<string>, counts: Counts): (parts: seq<string>)
    ensures |parts| == |keys|
    ensures forall i :: 0 <= i < |keys| ==> parts[i] == StatePart(keys[i], CountOf(counts, keys[i]))
  {
    seq(|keys|, i requires 0 <= i < |keys| => StatePart(keys[i], CountOf(counts, keys[i])))
  }

  function ByStateLineOf(counts: Counts): string {
    var parts := PartsFor(ListedKeys(counts), counts);
    if |parts| > 0 then Join(parts, BY_STATE_SEP) else BY_STATE_NA
  }

  /** The by-state line of `build_map`. */
  method ByStateLine(counts: Counts) returns (line: string)
    requires Distinct(KeysOf(counts))
    ensures line == ByStateLineOf(counts)
  {
    var parts: seq<string> := [];
    for j := 0 to |ORDER_STATES|
      invariant parts == PartsFor(Filter(ORDER_STATES[..j], KnownTest(counts)), counts)
    {
      var abbr := ORDER_STATES[j];
      KnownStep(counts, j);
      if abbr in KeysOf(counts) {
        parts := parts + [StatePart(abbr, CountOf(counts, abbr))];
      }
    }
    assert ORDER_STATES[..|ORDER_STATES|] == ORDER_STATES;
    for j := 0 to |counts|
      invariant parts == PartsFor(Filter(ORDER_STATES, KnownTest(counts)) + Filter(KeysOf(counts)[..j], IsOther), counts)
    {
      var (k, v) := counts[j];
      OtherStep(counts, j);
      if k !in ORDER_STATES {
        parts := parts + [StatePart(k, v)];
      }
    }
    assert KeysOf(counts)[..|counts|] == KeysOf(counts);
    line := if |parts| > 0 then Join(parts, BY_STATE_SEP) else BY_STATE_NA;
  }

  /** One step of the loop over `ORDER_STATES`. */
  lemma KnownStep(counts: Counts, j: nat)
    requires j < |ORDER_STATES|
    ensures var ks := KnownTest(counts); var abbr := ORDER_STATES[j];
      PartsFor(Filter(ORDER_STATES[..j + 1], ks), counts)
      == PartsFor(Filter(ORDER_STATES[..j], ks), counts)
         + (if abbr in KeysOf(counts) then [StatePart(abbr, CountOf(counts, abbr))] else [])
  {
    var ks := KnownTest(counts);
    FilterSnoc(ORDER_STATES, ks, j);
    PartsForSnoc(Filter(ORDER_STATES[..j], ks), ORDER_STATES[j], counts);
  }

  /** One step of the loop over the other keys. */
  lemma OtherStep(counts: Counts, j: nat)
    requires Distinct(KeysOf(counts)) && j < |counts|
    ensures var listed := Filter(ORDER_STATES, KnownTest(counts)); var keys := KeysOf(counts);
      PartsFor(listed + Filter(keys[..j + 1], IsOther), counts)
      == PartsFor(listed + Filter(keys[..j], IsOther), counts)
         + (if counts[j].0 !in ORDER_STATES then [StatePart(counts[j].0, counts[j].1)] else [])
  {
    var listed := Filter(ORDER_STATES, KnownTest(counts));
    var keys := KeysOf(counts);
    FilterSnoc(keys, IsOther, j);
    if IsOther(keys[j]) {
      CountOfDistinct(counts, j);
      PartsForSnoc(listed + Filter(keys[..j], IsOther), keys[j], counts);
      assert listed + Filter(keys[..j + 1], IsOther) == (listed + Filter(keys[..j], IsOther)) + [keys[j]];
    } else {
      assert Filter(keys[..j + 1], IsOther) == Filter(keys[..j], IsOther);
    }
  }

  lemma PartsForSnoc(keys: seq<string>, k: string, counts: Counts)
    ensures PartsFor(keys + [k], counts) == PartsFor(keys, counts) + [StatePart(k, CountOf(counts, k))]
  {
  }

  /** Every state with a count is listed exactly once, so the line has one part
      per key, and it is "By state: n/a" exactly when there are no counts. */
  lemma ListedKeysComplete(counts: Counts)
    requires Distinct(KeysOf(counts))
    ensures Distinct(ListedKeys(counts))
    ensures forall k :: k in ListedKeys(counts) <==> k in KeysOf(counts)
    ensures |ListedKeys(counts)| == |counts|
    ensures ByStateLineOf(counts) == BY_STATE_NA <==> |counts| == 0
  {
    var known := Filter(ORDER_STATES, KnownTest(counts));
    var others := Filter(KeysOf(counts), IsOther);
    assert Distinct(ORDER_STATES);
    FilterDistinct(ORDER_STATES, KnownTest(counts));
    FilterDistinct(KeysOf(counts), IsOther);
    forall k ensures k in known <==> k in ORDER_STATES && k in KeysOf(counts) {
      FilterMembership(ORDER_STATES, KnownTest(counts), k);
    }
    forall k ensures k in others <==> k in KeysOf(counts) && k !in ORDER_STATES {
      FilterMembership(KeysOf(counts), IsOther, k);
    }
    var l := known + others;
    forall i, j | 0 <= i < j < |l| ensures l[i] != l[j] {
      if j < |known| {
      } else if i >= |known| {
        assert l[i] == others[i - |known|] && l[j] == others[j - |known|];
      } else {
        assert l[i] in known && l[j] in others;
      }
    }
    SameElementsSameLength(l, KeysOf(counts));
    if |counts| > 0 {
      ByStateLineNotNa(counts);
    }
  }

  /** With at least one part the line is not the n/a text: its first part has
      a '<' that the n/a text lacks. */
  lemma ByStateLineNotNa(counts: Counts)
    requires |ListedKeys(counts)| > 0
    ensures ByStateLineOf(counts) != BY_STATE_NA
  {
    var l := ListedKeys(counts);
    var parts := PartsFor(l, counts);
    var k := l[0];
    var line := Join(parts, BY_STATE_SEP);
    assert parts[0] == k + " <b>" + Thousands(CountOf(counts, k)) + "</b>";
    assert parts[0][|k| + 1] == '<';
    assert StartsWith(line, parts[0]);
    assert line[|k| + 1] == '<';
    assert forall c :: c in BY_STATE_NA ==> c != '<';
  }

  /** States of the fixed order come before any other key; those states
      keep the order of `ORDER_STATES`, and the other keys keep the order of
      the counts. */
  lemma ListedKeysOrder(counts: Counts, i: int, j: int)
    requires 0 <= i < j < |ListedKeys(counts)|
    ensures var l := ListedKeys(counts);
      l[j] in ORDER_STATES ==>
        l[i] in ORDER_STATES
        && exists a, b :: 0 <= a < b < |ORDER_STATES| && ORDER_STATES[a] == l[i] && ORDER_STATES[b] == l[j]
    ensures var l := ListedKeys(counts);
      l[i] !in ORDER_STATES ==>
        l[j] !in ORDER_STATES
        && exists a, b :: 0 <= a < b < |counts| && counts[a].0 == l[i] && counts[b].0 == l[j]
  {
    var known := Filter(ORDER_STATES, KnownTest(counts));
    var others := Filter(KeysOf(counts), IsOther);
    var l := ListedKeys(counts);
    if j < |known| {
      assert l[i] == known[i] && l[j] == known[j];
      FilterMembership(ORDER_STATES, KnownTest(counts), l[i]);
      FilterOrder(ORDER_STATES, KnownTest(counts), i, j);
    } else if i >= |known| {
      assert l[i] == others[i - |known|] && l[j] == others[j - |known|];
      FilterMembership(KeysOf(counts), IsOther, l[i]);
      FilterMembership(KeysOf(counts), IsOther, l[j]);
      FilterOrder(KeysOf(counts), IsOther, i - |known|, j - |known|);
    } else {
      assert l[i] in known && l[j] in others;
      FilterMembership(ORDER_STATES, KnownTest(counts), l[i]);
      FilterMembership(KeysOf(counts), IsOther, l[j]);
    }
  }
}
