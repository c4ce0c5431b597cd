/** JSON payloads and the loosely typed readers of discord/normalize.ts and lib/time.ts. */
module Json {
  import opened Wrappers
  import opened Guards
  import opened Calendar

  /**
   * What `response.json()` can return. `Overflow` is a number literal too large for a double, which
   * is read as an infinity.
   */
  datatype Json =
    | Null
    | Bool(b: bool)
    | Number(value: real)
    | Overflow(negative: bool)
    | String(s: string)
    | Array(items: seq<Json>)
    | Object(fields: map<string, Json>)

  /** The engine's own date reading of a string, or of the string an array or object converts to. */
  type DateParser = Json -> Option<int>

  /** `record[key]`, where None is `undefined`. An array has none of the names the code reads. */
  function Field(record: Json, key: string): Option<Json> {
    if record.Object? && key in record.fields then Some(record.fields[key]) else None
  }

  /** `typeof value === "object" && value !== null`, which an array passes too. */
  predicate IsRecord(value: Option<Json>) {
    value.Some? && (value.value.Array? || value.value.Object?)
  }

  predicate Nullish(value: Option<Json>) {
    value.None? || value.value.Null?
  }

  /** `a ?? b` */
  function Coalesce(a: Option<Json>, b: Option<Json>): Option<Json> {
    if Nullish(a) then b else a
  }

  function AsString(value: Option<Json>): string {
    if value.Some? && value.value.String? then value.value.s else ""
  }

  function StringOrNull(value: Option<Json>): Option<string> {
    if value.Some? && value.value.String? then Some(value.value.s) else None
  }

  function AsNumber(value: Option<Json>, fallback: real): real {
    if value.Some? && value.value.Number? then value.value.value else fallback
  }

  function AsBoolean(value: Option<Json>): bool {
    value.Some? && value.value.Bool? && value.value.b
  }

  /** The range check that makes a `Date` invalid. */
  function TimeClip(ms: int): Option<Instant> {
    if -MAX_DATE <= ms <= MAX_DATE then Some(ms) else None
  }

  /** The time value of `new Date(value)`, None when the value is nullish or the date invalid. */
  function DateOf(value: Option<Json>, parse: DateParser): Option<Instant> {
    match value
    case None => None
    case Some(Null) => None
    case Some(Bool(b)) => Some(if b then 1 else 0)
    case Some(Number(x)) => TimeClip(Trunc(x))
    case Some(Overflow(_)) => None
    case Some(other) => (match parse(other) case None => None case Some(ms) => TimeClip(ms))
  }

  /** `toIso8601` */
  function ToIso8601(value: Option<Json>, parse: DateParser): Option<string> {
    match DateOf(value, parse)
    case None => None
    case Some(ms) => Some(IsoString(ms))
  }
}
