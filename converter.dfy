/**
 * The value normaliser of internal/converter/strategy.go: turns a decoded JSON
 * value into the cell value handed to an exporter.
 *
 * A Go string is a byte sequence; here it is a `string` holding one `char` per
 * byte, so `|s|` is Go's `len(s)` and `s[4]` is Go's `s[4]`.
 */
module Converter {
  import opened Wrappers

  /** A float64 as its IEEE 754 bit pattern; its arithmetic is never used. */
  datatype Float64 = Float64(bits: bv64)

  /** A time.Time value, as an instant and the zone offset it was written with. */
  datatype Timestamp = Timestamp(unixNanos: int, offsetSeconds: int)

  /** What encoding/json decodes into an interface{}. */
  datatype JsonValue =
    | JString(s: string)
    | JNumber(f: Float64)
    | JBool(b: bool)
    | JNull
    | JArray(elems: seq<JsonValue>)
    | JObject(fields: map<string, JsonValue>)

  /** What ConvertDynamic returns: never a nested structure. */
  datatype Cell =
    | Text(text: string)
    | Number(value: Float64)
    | Bool(flag: bool)
    | Time(time: Timestamp)

  /**
   * The Go library code the converter and the delimited-text exporter call but
   * that is not part of this model: time.Parse with the RFC 3339 layout, and
   * the "%v" rendering of fmt for composite values, floats and times.
   */
  datatype Library = Library(
    parseRfc3339: string -> Option<Timestamp>,
    sprintValue: JsonValue -> string,
    sprintFloat: Float64 -> string,
    sprintTime: Timestamp -> string)

  /** The cheap pre-check done before a date parse is attempted. */
  predicate LooksLikeDate(s: string) {
    |s| >= 10 && (s[4] == '-' || s[4] == '/')
  }

  function ConvertDynamic(lib: Library, value: JsonValue): (cell: Cell)
    // a timestamp comes exactly from a date-looking string that parses
    ensures cell.Time? <==>
      value.JString? && LooksLikeDate(value.s) && lib.parseRfc3339(value.s).Some?
    ensures cell.Time? ==> lib.parseRfc3339(value.s) == Some(cell.time)
    // every other string is returned as it came
    ensures value.JString? && !cell.Time? ==> cell == Text(value.s)
    // numbers and booleans pass through; null becomes the empty string
    ensures value.JNumber? ==> cell == Number(value.f)
    ensures value.JBool? ==> cell == Bool(value.b)
    ensures value.JNull? ==> cell == Text("")
    // arrays and objects are flattened to their "%v" rendering
    ensures value.JArray? || value.JObject? ==> cell == Text(lib.sprintValue(value))
  {
    match value
    case JString(s) =>
      if LooksLikeDate(s) then
        match lib.parseRfc3339(s)
        case Some(t) => Time(t)
        case None => Text(s)
      else
        Text(s)
    case JNumber(f) => Number(f)
    case JBool(b) => Bool(b)
    case JNull => Text("")
    case _ => Text(lib.sprintValue(value))
  }

  /** When the pre-check fails the parser is never consulted: any two parsers agree. */
  lemma {:induction false} NoParseWithoutDateShape(lib1: Library, lib2: Library, s: string)
    requires !LooksLikeDate(s)
    ensures ConvertDynamic(lib1, JString(s)) == ConvertDynamic(lib2, JString(s)) == Text(s)
  {
  }

  /** A string whose result is a string is a fixed point of the converter. */
  lemma {:induction false} TextIsFixedPoint(lib: Library, s: string)
    requires ConvertDynamic(lib, JString(s)).Text?
    ensures ConvertDynamic(lib, JString(s)) == Text(s)
    ensures ConvertDynamic(lib, JString(ConvertDynamic(lib, JString(s)).text)) == Text(s)
  {
  }

  /**
   * Five conversions: "hello" stays text, null becomes "", true stays a
   * boolean, "2024-01-15T10:00:00Z" becomes the timestamp its parse gives, and
   * the date-shaped "not-a-date-val", which does not parse, stays text.
   */
  lemma {:induction false} ConversionExamples(lib: Library, t: Timestamp)
    requires lib.parseRfc3339("2024-01-15T10:00:00Z") == Some(t)
    requires lib.parseRfc3339("not-a-date-val") == None
    ensures ConvertDynamic(lib, JString("hello")) == Text("hello")
    ensures ConvertDynamic(lib, JNull) == Text("")
    ensures ConvertDynamic(lib, JBool(true)) == Bool(true)
    ensures ConvertDynamic(lib, JString("2024-01-15T10:00:00Z")) == Time(t)
    ensures ConvertDynamic(lib, JString("not-a-date-val")) == Text("not-a-date-val")
  {
  }
}
