/**
 * The exporter factory of internal/export/exporter.go and the common
 * Init / WriteRow / finalize contract of its two variants.
 */
module Export {
  import opened Wrappers
  import opened Converter
  import opened Io
  import Csv
  import Xlsx

  const FormatXLSX: string := "xlsx"
  const FormatCSV: string := "csv"

  /** The two output formats. */
  datatype Kind = XlsxKind | CsvKind

  /** The format a Format string names, if any; the match is exact (case and all). */
  function FormatKind(format: string): (k: Option<Kind>)
    ensures k == Some(XlsxKind) <==> format == FormatXLSX
    ensures k == Some(CsvKind) <==> format == FormatCSV
    ensures k.None? <==> format != FormatXLSX && format != FormatCSV
  {
    if format == FormatXLSX then Some(XlsxKind)
    else if format == FormatCSV then Some(CsvKind)
    else None
  }

  /** The state of either exporter as a value. */
  datatype SinkState = CsvSink(log: seq<seq<string>>) | XlsxSink(book: Xlsx.XlsxState)

  /** The state of a newly constructed exporter of the given kind. */
  function Initial(kind: Kind): (s: SinkState)
    ensures s.CsvSink? <==> kind == CsvKind
  {
    match kind
    case CsvKind => CsvSink([])
    case XlsxKind => XlsxSink(Xlsx.Fresh())
  }

  /** Whether WriteRow may be called: for xlsx, a stream writer must be open. */
  predicate Ready(s: SinkState) {
    s.CsvSink? || s.book.streamWriter.Some?
  }

  function SinkInit(s: SinkState, headers: seq<string>, io: Xlsx.XlsxIo): (r: Step<SinkState>)
    ensures r.err.None? ==> Ready(r.next)
    ensures r.next.CsvSink? <==> s.CsvSink?
  {
    match s
    case CsvSink(log) => Step(CsvSink(Csv.InitStep(log, headers)), None)
    case XlsxSink(book) =>
      var st := Xlsx.InitStep(book, headers, io);
      Step(XlsxSink(st.next), st.err)
  }

  function SinkWriteRow(lib: Library, s: SinkState, row: seq<Slot>, io: Xlsx.XlsxIo): (r: Step<SinkState>)
    requires Ready(s)
    ensures r.err.None? ==> Ready(r.next)
    ensures r.next.CsvSink? <==> s.CsvSink?
  {
    match s
    case CsvSink(log) => Step(CsvSink(Csv.WriteRowStep(lib, log, row)), None)
    case XlsxSink(book) =>
      var st := Xlsx.WriteRowStep(book, row, io);
      Step(XlsxSink(st.next), st.err)
  }

  function SinkFinalize(s: SinkState, io: Xlsx.XlsxIo, failure: Option<string>): Written {
    match s
    case CsvSink(log) => Csv.FinalizeStep(log, failure)
    case XlsxSink(book) => Xlsx.FinalizeStep(book, io, failure)
  }

  /** An exporter: one of the two classes. */
  datatype Exporter = CsvVariant(c: Csv.CsvExporter) | XlsxVariant(x: Xlsx.XlsxExporter) {
    function Repr(): set<object> {
      match this
      case CsvVariant(c) => {c}
      case XlsxVariant(x) => {x}
    }

    function State(): SinkState
      reads Repr()
    {
      match this
      case CsvVariant(c) => CsvSink(c.records)
      case XlsxVariant(x) => XlsxSink(x.State())
    }

    method Init(headers: seq<string>, io: Xlsx.XlsxIo) returns (err: Option<Error>)
      modifies Repr()
      ensures State() == SinkInit(old(State()), headers, io).next
      ensures err == SinkInit(old(State()), headers, io).err
    {
      match this
      case CsvVariant(c) => err := c.Init(headers);
      case XlsxVariant(x) => err := x.Init(headers, io);
    }

    method WriteRow(lib: Library, row: array<Slot>, n: nat, io: Xlsx.XlsxIo) returns (err: Option<Error>)
      requires n <= row.Length
      requires Ready(State())
      modifies Repr()
      ensures State() == SinkWriteRow(lib, old(State()), row[..n], io).next
      ensures err == SinkWriteRow(lib, old(State()), row[..n], io).err
    {
      match this
      case CsvVariant(c) => err := c.WriteRow(lib, row, n);
      case XlsxVariant(x) => err := x.WriteRow(row, n, io);
    }

    /** ExportTo of the csv variant, WriteTo of the xlsx variant. */
    method Finalize(w: Destination, io: Xlsx.XlsxIo) returns (err: Option<Error>)
      modifies w
      ensures SinkFinalize(State(), io, w.failure).Failed? ==>
        err == Some(SinkFinalize(State(), io, w.failure).error) && w.written == old(w.written)
      ensures SinkFinalize(State(), io, w.failure).Wrote? ==>
        err == None && w.written == old(w.written) + [SinkFinalize(State(), io, w.failure).doc]
    {
      match this
      case CsvVariant(c) => err := c.ExportTo(w);
      case XlsxVariant(x) => err := x.WriteTo(w, io);
    }
  }

  /**
   * NewExporter: a newly constructed exporter for "xlsx" or "csv", otherwise
   * the unsupported-format error; exactly one of the two results is present.
   */
  method NewExporter(format: string) returns (exporter: Option<Exporter>, err: Option<Error>)
    ensures exporter.Some? <==> err.None?
    ensures exporter.Some? <==> FormatKind(format).Some?
    ensures err.Some? ==> err.value == UnsupportedFormat(format)
    ensures exporter.Some? ==> exporter.value.State() == Initial(FormatKind(format).value)
    ensures exporter.Some? ==> fresh(exporter.value.Repr())
  {
    if format == FormatXLSX {
      var x := new Xlsx.XlsxExporter();
      return Some(XlsxVariant(x)), None;
    } else if format == FormatCSV {
      var c := new Csv.CsvExporter();
      return Some(CsvVariant(c)), None;
    } else {
      return None, Some(UnsupportedFormat(format));
    }
  }
}
