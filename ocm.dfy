/** The shape of an Open Charge Map POI record, as far as the two scripts read
    it. JSON objects are seen through `dict.get`, so a member can be absent,
    present with `null`, or present with a value. */
module Ocm {
  import opened Wrappers

  datatype Member<T> = Missing | Null | Present(value: T)

  /** A numeric member as `float(x)` or `int(x)` sees it: no such key, `null`,
      a value the conversion accepts (with its result), or one it rejects. */
  datatype NumField<T> = NoKey | NullNum | Num(value: T) | NotNumeric

  /** Objects such as `UsageType`, `StatusType`, `OperatorInfo` and
      `ConnectionType`, of which only `Title` is read. */
  datatype Titled = Titled(title: Option<string>)

  /** `AddressInfo`; `lat`/`lon` are the coordinates after numeric coercion
      (`None` when missing or not numeric). */
  datatype Address = Address(
    title: Option<string>,
    town: Option<string>,
    state: Option<string>,
    lat: Option<real>,
    lon: Option<real>)

  /** One element of `Connections`. */
  datatype Connection = Connection(
    powerKW: NumField<real>,
    connectionPowerKW: NumField<real>,
    quantity: NumField<int>,
    connectionType: Option<Titled>)

  /** `Falsy` stands for an element Python treats as false (`None` or `{}`). */
  datatype ConnEntry = Falsy | Entry(conn: Connection)

  datatype Poi = Poi(
    id: Option<int>,
    address: Member<Address>,
    connections: Member<seq<ConnEntry>>,
    operatorInfo: Member<Titled>,
    usageType: Member<Titled>,
    statusType: Member<Titled>)

  /** `obj.get("Title")` on `p.get(k) or {}`. */
  function TitleOf(m: Member<Titled>): Option<string> {
    if m.Present? then m.value.title else None
  }
}
