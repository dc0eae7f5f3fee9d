/** The data side of the v7 build script: flattening Open Charge Map POIs into
    rows (stripping the state, replacing full state names, filling missing
    statuses), dropping rows without coordinates, the marker colour of a
    status, and the status counts of the snapshot box. */
module Records7 {
  import opened Wrappers
  import opened Text
  import opened Seqs
  import opened Ocm

  /** The exact (case-sensitive, whole-value) replacements applied to the
      stripped state column. */
  const STATE_REPLACE: map<string, string> := map[
    "Western Australia" := "WA", "W.A." := "WA",
    "Victoria" := "VIC", "New South Wales" := "NSW",
    "Queensland" := "QLD", "South Australia" := "SA",
    "Tasmania" := "TAS", "Northern Territory" := "NT",
    "Australian Capital Territory" := "ACT"]

  // ---------------------------------------------------------------------------
  // State and status columns
  // ---------------------------------------------------------------------------

  /** `df["state"].replace({...})` on one value. */
  function ReplaceState(t: string): (r: string)
    ensures t !in STATE_REPLACE ==> r == t
    ensures t in STATE_REPLACE ==> r in STATE_REPLACE.Values && r !in STATE_REPLACE
  {
    if t in STATE_REPLACE then STATE_REPLACE[t] else t
  }

  /** The state column: `(addr.get("StateOrProvince") or "").strip()`, then replaced. */
  function StateValue(raw: Option<string>): string {
    ReplaceState(PyStrip(raw.GetOr("")))
  }

  /** Replacing twice is replacing once: no replacement yields a key. */
  lemma ReplaceStateIdempotent(t: string)
    ensures ReplaceState(ReplaceState(t)) == ReplaceState(t)
  {
  }

  /** A full state name or "W.A.", whatever whitespace pads it, becomes its
      abbreviation; a stripped value that is not one of them is kept as it is,
      so a different spelling or case ("victoria", "Vic") passes through. */
  lemma StateValueFacts(w1: string, v: string, w2: string)
    requires AllSpace(w1, PySpace) && AllSpace(w2, PySpace) && Unpadded(v, PySpace)
    ensures v in STATE_REPLACE ==> StateValue(Some(w1 + v + w2)) == STATE_REPLACE[v]
    ensures v !in STATE_REPLACE ==> StateValue(Some(w1 + v + w2)) == v
  {
    TrimPadded(w1, v, w2, PySpace);
  }

  /** A missing or null state becomes the empty string. */
  lemma StateValueMissing()
    ensures StateValue(None) == ""
  {
    assert PyStrip("") == "";
    assert "" !in STATE_REPLACE by {
      assert forall k | k in STATE_REPLACE :: |k| >= 4;
    }
  }

  /** `df["status"].fillna("Unknown")`. */
  function FillStatus(status: Option<string>): (r: string)
    ensures status.Some? ==> r == status.value
    ensures status.None? ==> r == "Unknown"
  {
    status.GetOr("Unknown")
  }

  // ---------------------------------------------------------------------------
  // Rows
  // ---------------------------------------------------------------------------

  /** One row of the v7 sites table (the connection-derived columns left out). */
  datatype Row = Row(
    id: Option<int>,
    title: Option<string>,
    town: Option<string>,
    state: string,
    lat: Option<real>,
    lon: Option<real>,
    usageType: Option<string>,
    status: string,
    operator: Option<string>)

  /** `d.get(k, {}).get("Title")`: a missing member gives `None`, a member
      present with `null` makes `.get` raise. */
  predicate RaisesOnNull<T>(m: Member<T>) { m.Null? }

  /** `normalise_ocm` raises on a POI whose `AddressInfo`, `UsageType`,
      `StatusType` or `OperatorInfo` is present with `null`, or whose
      `Connections` is `null` (iterating `None`). */
  predicate Raises(p: Poi) {
    RaisesOnNull(p.address) || RaisesOnNull(p.usageType) || RaisesOnNull(p.statusType)
    || RaisesOnNull(p.operatorInfo) || RaisesOnNull(p.connections)
  }

  function AddressOf(p: Poi): Address {
    if p.address.Present? then p.address.value else Address(None, None, None, None, None)
  }

  /** The finished row of a POI that does not raise. */
  function RowOf(p: Poi): Row {
    var a := AddressOf(p);
    Row(p.id, a.title, a.town, StateValue(a.state), a.lat, a.lon,
      TitleOf(p.usageType), FillStatus(TitleOf(p.statusType)), TitleOf(p.operatorInfo))
  }

  /** The table `normalise_ocm` returns, or the index of the POI at which it
      raises. */
  function Normalised(pois: seq<Poi>): Result<seq<Row>, nat>
    decreases |pois|
  {
    if |pois| == 0 then Ok([])
    else
      match Normalised(pois[..|pois| - 1])
      case Err(i) => Err(i)
      case Ok(rows) =>
        if Raises(pois[|pois| - 1]) then Err(|pois| - 1) else Ok(rows + [RowOf(pois[|pois| - 1])])
  }

  /** `normalise_ocm` raises at the first POI with a null member. */
  lemma {:induction false} NormalisedErr(pois: seq<Poi>)
    ensures Normalised(pois).Err? ==>
      var i := Normalised(pois).error;
      i < |pois| && Raises(pois[i]) && forall j :: 0 <= j < i ==> !Raises(pois[j])
    decreases |pois|
  {
    if |pois| > 0 {
      var init := pois[..|pois| - 1];
      NormalisedErr(init);
      NormalisedOk(init);
      assert forall j :: 0 <= j < |init| ==> init[j] == pois[j];
    }
  }

  /** Without a null member there is one row per POI, in order. */
  lemma {:induction false} NormalisedOk(pois: seq<Poi>)
    ensures Normalised(pois).Ok? ==>
      (forall j :: 0 <= j < |pois| ==> !Raises(pois[j]))
      && |Normalised(pois).value| == |pois|
      && forall j :: 0 <= j < |pois| ==> Normalised(pois).value[j] == RowOf(pois[j])
    decreases |pois|
  {
    if |pois| > 0 && Normalised(pois).Ok? {
      var init := pois[..|pois| - 1];
      NormalisedOk(init);
      var rows := Normalised(init).value;
      var last := pois[|pois| - 1];
      assert !Raises(last);
      assert Normalised(pois).value == rows + [RowOf(last)];
      forall j | 0 <= j < |pois|
        ensures !Raises(pois[j]) && Normalised(pois).value[j] == RowOf(pois[j])
      {
        if j < |init| {
          assert init[j] == pois[j];
        }
      }
    }
  }

  /** Once raised, the error is what the whole loop gives. */
  lemma {:induction false} NormalisedErrStays(pois: seq<Poi>, k: nat)
    requires k <= |pois| && Normalised(pois[..k]).Err?
    ensures Normalised(pois) == Normalised(pois[..k])
    decreases |pois| - k
  {
    if k < |pois| {
      assert pois[..k + 1][..k] == pois[..k];
      NormalisedErrStays(pois, k + 1);
    } else {
      assert pois[..k] == pois;
    }
  }

  /** Why `normalise_ocm` fails: a POI with a null member (its index), or an
      empty POI list, whose table has no "state" column to replace in. */
  datatype NormaliseError = NullMember(index: nat) | NoStateColumn

  /** The outcome of `normalise_ocm`: the row loop, then the column steps,
      which raise `KeyError` on a table built from no rows. */
  function NormalisedTable(pois: seq<Poi>): (r: Result<seq<Row>, NormaliseError>)
    ensures r == Err(NoStateColumn) <==> |pois| == 0
    ensures r.Err? && r.error.NullMember? ==>
      r.error.index < |pois| && Raises(pois[r.error.index])
      && forall j :: 0 <= j < r.error.index ==> !Raises(pois[j])
    ensures r.Ok? ==> |r.value| == |pois| > 0 && forall j :: 0 <= j < |pois| ==> r.value[j] == RowOf(pois[j])
    ensures r.Ok? <==> |pois| > 0 && forall j :: 0 <= j < |pois| ==> !Raises(pois[j])
  {
    NormalisedErr(pois);
    NormalisedOk(pois);
    NormalisedNoRaise(pois);
    match Normalised(pois)
    case Err(i) => Err(NullMember(i))
    case Ok(rows) => if |rows| == 0 then Err(NoStateColumn) else Ok(rows)
  }

  /** With no null member the row loop does not raise. */
  lemma {:induction false} NormalisedNoRaise(pois: seq<Poi>)
    ensures (forall j :: 0 <= j < |pois| ==> !Raises(pois[j])) ==> Normalised(pois).Ok?
    decreases |pois|
  {
    if |pois| > 0 && forall j :: 0 <= j < |pois| ==> !Raises(pois[j]) {
      var init := pois[..|pois| - 1];
      assert forall j :: 0 <= j < |init| ==> init[j] == pois[j];
      NormalisedNoRaise(init);
    }
  }

  /** The row loop of `normalise_ocm`, with the state replacement and status
      filling applied to each row, then the column steps. */
  method NormaliseOcm(pois: seq<Poi>) returns (r: Result<seq<Row>, NormaliseError>)
    ensures r == NormalisedTable(pois)
  {
    var rows: seq<Row> := [];
    var i := 0;
    while i < |pois|
      invariant 0 <= i <= |pois|
      invariant Normalised(pois[..i]) == Ok(rows)
    {
      var d := pois[i];
      assert pois[..i + 1][..i] == pois[..i];
      if Raises(d) {
        NormalisedErrStays(pois, i + 1);
        return Err(NullMember(i));
      }
      var addr := AddressOf(d);
      var state := PyStrip(addr.state.GetOr(""));
      rows := rows + [Row(d.id, addr.title, addr.town, ReplaceState(state), addr.lat, addr.lon,
        TitleOf(d.usageType), FillStatus(TitleOf(d.statusType)), TitleOf(d.operatorInfo))];
      i := i + 1;
    }
    assert pois[..i] == pois;
    if |rows| == 0 {
      return Err(NoStateColumn);
    }
    r := Ok(rows);
  }

  predicate Located(r: Row) { r.lat.Some? && r.lon.Some? }

  /** `enrich_dataframe`: the rows with both coordinates, in order. */
  function Enrich(rows: seq<Row>): seq<Row> {
    Filter(rows, Located)
  }

  /** Enriching drops exactly the rows missing a coordinate and changes no row. */
  lemma EnrichKeeps(rows: seq<Row>, r: Row)
    ensures r in Enrich(rows) <==> r in rows && r.lat.Some? && r.lon.Some?
  {
    FilterMembership(rows, Located, r);
  }

  // ---------------------------------------------------------------------------
  // Marker colour and status counts
  // ---------------------------------------------------------------------------

  predicate Mentions(status: string, word: string) { Contains(Lower(status), word) }

  /** The marker colour: the first of "operational", "partial", "down" the
      status mentions, ignoring case, decides; otherwise gray. */
  function StatusColour(status: string): (c: string)
    ensures c in {"green", "orange", "red", "gray"}
    ensures c == "gray" <==> !Mentions(status, "operational") && !Mentions(status, "partial") && !Mentions(status, "down")
    ensures c == "green" <==> Mentions(status, "operational")
    ensures c == "orange" <==> !Mentions(status, "operational") && Mentions(status, "partial")
    ensures c == "red" <==> !Mentions(status, "operational") && !Mentions(status, "partial") && Mentions(status, "down")
  {
    if Mentions(status, "operational") then "green"
    else if Mentions(status, "partial") then "orange"
    else if Mentions(status, "down") then "red"
    else "gray"
  }

  /** The colour ignores case. */
  lemma StatusColourIgnoresCase(s: string)
    ensures StatusColour(Upper(s)) == StatusColour(s)
  {
    LowerUpper(s);
  }

  /** How many of the three words a status mentions. */
  function Matches(status: string): (n: nat)
    ensures n <= 3
  {
    (if Mentions(status, "operational") then 1 else 0)
    + (if Mentions(status, "partial") then 1 else 0)
    + (if Mentions(status, "down") then 1 else 0)
  }

  /** `len(df[df["status"].str.contains(word, case=False)])`. */
  function CountMentions(rows: seq<Row>, word: string): (n: nat)
    ensures n <= |rows|
    decreases |rows|
  {
    if |rows| == 0 then 0
    else CountMentions(rows[..|rows| - 1], word) + (if Mentions(rows[|rows| - 1].status, word) then 1 else 0)
  }

  function SumMatches(rows: seq<Row>): nat
    decreases |rows|
  {
    if |rows| == 0 then 0 else SumMatches(rows[..|rows| - 1]) + Matches(rows[|rows| - 1].status)
  }

  /** The counts of the snapshot box. */
  datatype StatusSummary = StatusSummary(total: nat, operational: nat, partial: nat, down: nat, unknown: int)

  /** The counts as `build_map` computes them; the percentages that follow
      divide by the total, so an empty table raises `ZeroDivisionError`. */
  function Summary(rows: seq<Row>): (r: Result<StatusSummary, string>)
    ensures r.Err? <==> |rows| == 0
    ensures r.Ok? ==> (r.value.total == |rows|
      && r.value.operational + r.value.partial + r.value.down + r.value.unknown == |rows|)
  {
    if |rows| == 0 then Err("ZeroDivisionError")
    else
      var op := CountMentions(rows, "operational");
      var pa := CountMentions(rows, "partial");
      var dn := CountMentions(rows, "down");
      Ok(StatusSummary(|rows|, op, pa, dn, |rows| - (op + pa + dn)))
  }

  /** The three counts add up the words each row mentions. */
  lemma {:induction false} CountsAreSumOfMatches(rows: seq<Row>)
    ensures CountMentions(rows, "operational") + CountMentions(rows, "partial") + CountMentions(rows, "down")
      == SumMatches(rows)
    decreases |rows|
  {
    if |rows| > 0 {
      CountsAreSumOfMatches(rows[..|rows| - 1]);
    }
  }

  predicate IsGray(r: Row) { StatusColour(r.status) == "gray" }

  /** When no status mentions more than one of the words, "unknown" is the
      number of gray markers. */
  lemma {:induction false} UnknownIsGrayWhenExclusive(rows: seq<Row>)
    requires |rows| > 0
    requires forall i :: 0 <= i < |rows| ==> Matches(rows[i].status) <= 1
    ensures Summary(rows).value.unknown == |Filter(rows, IsGray)|
  {
    CountsAreSumOfMatches(rows);
    GrayCount(rows);
  }

  lemma {:induction false} GrayCount(rows: seq<Row>)
    requires forall i :: 0 <= i < |rows| ==> Matches(rows[i].status) <= 1
    ensures SumMatches(rows) + |Filter(rows, IsGray)| == |rows|
    decreases |rows|
  {
    if |rows| > 0 {
      var init := rows[..|rows| - 1];
      assert forall i :: 0 <= i < |init| ==> init[i] == rows[i];
      GrayCount(init);
    }
  }

  /** A status mentioning two of the words is counted twice, so on its own
      it makes "unknown" negative. */
  lemma DoubleCountedStatus(r: Row)
    requires Matches(r.status) >= 2
    ensures Summary([r]).Ok? && Summary([r]).value.unknown < 0
  {
    CountsAreSumOfMatches([r]);
    assert SumMatches([r]) == Matches(r.status) by {
      assert [r][..0] == [];
    }
  }

  /** "Partially Operational" mentions both "partial" and "operational". */
  lemma PartiallyOperationalDoubleCounted()
    ensures Matches("Partially Operational") >= 2
  {
    MentionsPartial();
    MentionsOperational();
  }

  lemma MentionsPartial()
    ensures Mentions("Partially Operational", "partial")
  {
    LowerContainsInfix("", "Partial", "ly Operational");
    assert "" + "Partial" + "ly Operational" == "Partially Operational";
    assert Lower("Partial") == "partial";
  }

  lemma MentionsOperational()
    ensures Mentions("Partially Operational", "operational")
  {
    LowerContainsInfix("Partially ", "Operational", "");
    assert "Partially " + "Operational" + "" == "Partially Operational";
    assert Lower("Operational") == "operational";
  }

  /** The counts as the box evidently means them: each row counted once, by
      the same priority as its marker colour. */
  function ColourSummary(rows: seq<Row>): (r: Result<StatusSummary, string>)
    ensures r.Err? <==> |rows| == 0
  {
    if |rows| == 0 then Err("ZeroDivisionError")
    else
      Ok(StatusSummary(|rows|,
        |Filter(rows, IsColour("green"))|, |Filter(rows, IsColour("orange"))|,
        |Filter(rows, IsColour("red"))|, |Filter(rows, IsGray)|))
  }

  function IsColour(c: string): Row -> bool {
    (r: Row) => StatusColour(r.status) == c
  }

  /** Counted by colour, the four numbers are never negative and add up to the
      total. */
  lemma {:induction false} ColourSummaryPartitions(rows: seq<Row>)
    requires |rows| > 0
    ensures var s := ColourSummary(rows).value;
      s.unknown >= 0 && s.operational + s.partial + s.down + s.unknown == s.total
  {
    ColourCountsAdd(rows);
  }

  lemma {:induction false} ColourCountsAdd(rows: seq<Row>)
    ensures |Filter(rows, IsColour("green"))| + |Filter(rows, IsColour("orange"))|
      + |Filter(rows, IsColour("red"))| + |Filter(rows, IsGray)| == |rows|
    decreases |rows|
  {
    if |rows| > 0 {
      ColourCountsAdd(rows[..|rows| - 1]);
    }
  }

  /** On statuses that mention at most one word, the two ways of counting
      agree. */
  lemma SummariesAgreeWhenExclusive(rows: seq<Row>)
    requires |rows| > 0
    requires forall i :: 0 <= i < |rows| ==> Matches(rows[i].status) <= 1
    ensures Summary(rows).value.unknown == ColourSummary(rows).value.unknown
  {
    UnknownIsGrayWhenExclusive(rows);
  }
}
