/**
 * What Execute promises, stated on Run (which Execute is proved to follow):
 * the checks come before any exporter call, Init is the first call and the
 * only one, the i-th WriteRow gets the row of the i-th record, the output is
 * written only on success, and, without faults, the document written holds
 * the header and the rows in record order.
 */
module EngineProperties {
  import opened Wrappers
  import opened Converter
  import opened Io
  import opened Export
  import opened Sheets
  import Csv
  import Xlsx
  import opened J2e

  /** The row of a record under the header: the converted value of each header key it has, nil for the others. */
  lemma {:induction false} RowColumns(lib: Library, hs: seq<string>, headerMap: map<string, nat>, rec: Record, k: string)
    requires IndexedBy(headerMap, hs) && k in headerMap
    ensures headerMap[k] < |BuildRow(lib, hs, rec)|
    ensures k in rec ==> BuildRow(lib, hs, rec)[headerMap[k]] == Val(ConvertDynamic(lib, rec[k]))
    ensures k !in rec ==> BuildRow(lib, hs, rec)[headerMap[k]] == Nil
  {
    ColumnOf(headerMap, hs, k);
  }

  /** Changing a record outside the header's keys does not change its row. */
  lemma {:induction false} RowIgnoresOtherKeys(lib: Library, hs: seq<string>, rec: Record, k: string, v: JsonValue)
    requires forall i :: 0 <= i < |hs| ==> hs[i] != k
    ensures BuildRow(lib, hs, rec[k := v]) == BuildRow(lib, hs, rec)
  {
    var a, b := BuildRow(lib, hs, rec[k := v]), BuildRow(lib, hs, rec);
    forall i | 0 <= i < |hs| ensures a[i] == b[i] {
      assert hs[i] != k;
    }
  }

  /** The calls of a loop over `records` that succeeds: Init with the header, then WriteRow of each record's row. */
  function ExpectedCalls(lib: Library, hs: seq<string>, records: seq<Record>): (calls: seq<Call>)
    ensures |calls| == if |records| == 0 then 0 else |records| + 1
  {
    if |records| == 0 then []
    else [InitCall(hs)] + seq(|records|, i requires 0 <= i < |records| => WriteRowCall(BuildRow(lib, hs, records[i])))
  }

  /** One more record extends the expected calls by its WriteRow. */
  lemma {:induction false} ExpectedSnoc(lib: Library, hs: seq<string>, records: seq<Record>)
    requires |records| > 1
    ensures ExpectedCalls(lib, hs, records) ==
      ExpectedCalls(lib, hs, records[..|records| - 1]) + [WriteRowCall(BuildRow(lib, hs, records[|records| - 1]))]
  {
    var init := records[..|records| - 1];
    var a, b := ExpectedCalls(lib, hs, records), ExpectedCalls(lib, hs, init) + [WriteRowCall(BuildRow(lib, hs, records[|records| - 1]))];
    forall i | 1 <= i < |a| ensures a[i] == b[i] {
      if i < |records| {
        assert records[i - 1] == init[i - 1];
      }
    }
  }

  /**
   * The calls of the main loop are the calls of a successful loop as far as
   * it got: Init with the header first, once, then WriteRow of the row of
   * each record in turn; all of them when the loop did not fail.
   */
  lemma {:induction false} ConsumeTrace(lib: Library, kind: Kind, hs: seq<string>, records: seq<Record>,
                                        faults: nat -> Xlsx.XlsxIo)
    ensures var p := Consume(lib, kind, hs, records, faults);
      |p.trace| <= |ExpectedCalls(lib, hs, records)| &&
      p.trace == ExpectedCalls(lib, hs, records)[..|p.trace|] &&
      (|records| > 0 ==> |p.trace| > 0) &&
      (p.err.None? ==> p.trace == ExpectedCalls(lib, hs, records))
    decreases |records|
  {
    var n := |records|;
    if n > 0 {
      var init := records[..n - 1];
      ConsumeTrace(lib, kind, hs, init, faults);
      var prev := Consume(lib, kind, hs, init, faults);
      var e, e' := ExpectedCalls(lib, hs, records), ExpectedCalls(lib, hs, init);
      if n == 1 {
        assert e == [InitCall(hs), WriteRowCall(BuildRow(lib, hs, records[0]))];
      } else {
        ExpectedSnoc(lib, hs, records);
        assert e[..|e'|] == e';
        if prev.err.Some? {
          assert e'[..|prev.trace|] == e[..|prev.trace|];
        }
      }
    }
  }

  /** A stream left unset, an unknown format or input that is no JSON array fails before any exporter call. */
  lemma {:induction false} ChecksComeFirst(input: Option<Input>, hasOutput: bool, failure: Option<string>,
                                           format: string, lib: Library, faults: nat -> Xlsx.XlsxIo, hs: seq<string>)
    requires !Reaches(input, hasOutput, format)
    ensures var out := Run(input, hasOutput, failure, format, lib, faults, hs);
      out.trace == [] && out.written.None? &&
      out.err == Some(if input.None? || !hasOutput then StreamsNotSet
                      else if FormatKind(format).None? then UnsupportedFormat(format)
                      else NotAnArray)
  {
  }

  /** The output receives a document exactly when Execute succeeds, and only by the last call, Finalize. */
  lemma {:induction false} WrittenOnlyOnSuccess(input: Option<Input>, hasOutput: bool, failure: Option<string>,
                                                format: string, lib: Library, faults: nat -> Xlsx.XlsxIo,
                                                hs: seq<string>)
    ensures var out := Run(input, hasOutput, failure, format, lib, faults, hs);
      (out.written.Some? <==> out.err.None?) &&
      (out.written.Some? ==> |out.trace| > 0 && out.trace[|out.trace| - 1] == FinalizeCall) &&
      (forall i :: 0 <= i < |out.trace| && out.trace[i] == FinalizeCall ==> i == |out.trace| - 1)
  {
    if Reaches(input, hasOutput, format) {
      var p := Consume(lib, FormatKind(format).value, hs, input.value.records, faults);
      ConsumeTrace(lib, FormatKind(format).value, hs, input.value.records, faults);
      assert forall i :: 0 <= i < |p.trace| ==> p.trace[i] != FinalizeCall;
    }
  }

  /** After the checks, the calls are the loop's, then Finalize when neither the loop nor the decoder failed. */
  lemma {:induction false} TraceOfRun(input: Input, failure: Option<string>, format: string, lib: Library,
                                      faults: nat -> Xlsx.XlsxIo, hs: seq<string>)
    requires Reaches(Some(input), true, format)
    ensures var p := Consume(lib, FormatKind(format).value, hs, input.records, faults);
      Run(Some(input), true, failure, format, lib, faults, hs).trace ==
        p.trace + if p.err.None? && input.decodeError.None? then [FinalizeCall] else []
  {
  }

  /**
   * Once the checks pass, call i is the i-th call of a successful loop, or the
   * Finalize after all of them; Finalize comes exactly when neither the loop
   * nor the decoder failed.
   */
  lemma {:induction false} RunCalls(input: Input, failure: Option<string>, format: string, lib: Library,
                                    faults: nat -> Xlsx.XlsxIo, hs: seq<string>)
    requires Reaches(Some(input), true, format)
    ensures var out := Run(Some(input), true, failure, format, lib, faults, hs);
      var p := Consume(lib, FormatKind(format).value, hs, input.records, faults);
      var e := ExpectedCalls(lib, hs, input.records);
      (FinalizeCall in out.trace <==> p.err.None? && input.decodeError.None?) &&
      (|input.records| > 0 ==> |out.trace| > 0) &&
      (forall i :: 0 <= i < |out.trace| ==> if i < |e| then out.trace[i] == e[i] else out.trace[i] == FinalizeCall)
  {
    var kind := FormatKind(format).value;
    var p := Consume(lib, kind, hs, input.records, faults);
    TraceOfRun(input, failure, format, lib, faults, hs);
    ConsumeTrace(lib, kind, hs, input.records, faults);
    var e := ExpectedCalls(lib, hs, input.records);
    assert forall i :: 0 <= i < |p.trace| ==> p.trace[i] == e[i];
    assert forall i :: 0 <= i < |e| ==> e[i] != FinalizeCall;
  }

  /**
   * Init is the first call, with the header, made exactly when there is a
   * record and at no other position; with no records the only call is
   * Finalize, and only when the decoder finished cleanly.
   */
  lemma {:induction false} InitOnceFirst(input: Input, failure: Option<string>, format: string, lib: Library,
                                         faults: nat -> Xlsx.XlsxIo, hs: seq<string>)
    requires Reaches(Some(input), true, format)
    ensures var out := Run(Some(input), true, failure, format, lib, faults, hs);
      (forall i :: 0 <= i < |out.trace| ==> (out.trace[i].InitCall? <==> i == 0 && |input.records| > 0)) &&
      (|input.records| > 0 ==> |out.trace| > 0 && out.trace[0] == InitCall(hs)) &&
      (|input.records| == 0 ==> out.trace == if input.decodeError.None? then [FinalizeCall] else [])
  {
    RunCalls(input, failure, format, lib, faults, hs);
    TraceOfRun(input, failure, format, lib, faults, hs);
  }

  /** Every WriteRow call after the Init is the row of the record of its position, in input order. */
  lemma {:induction false} RowsInOrder(input: Input, failure: Option<string>, format: string, lib: Library,
                                       faults: nat -> Xlsx.XlsxIo, hs: seq<string>)
    requires Reaches(Some(input), true, format)
    ensures var out := Run(Some(input), true, failure, format, lib, faults, hs);
      forall i :: 1 <= i < |out.trace| && out.trace[i].WriteRowCall? ==>
        i <= |input.records| && out.trace[i] == WriteRowCall(BuildRow(lib, hs, input.records[i - 1]))
  {
    RunCalls(input, failure, format, lib, faults, hs);
  }

  /**
   * A decode error after k records: the rows of all k records have been
   * written, unless the exporter failed first, and Execute returns the decode
   * error without Finalize.
   */
  lemma {:induction false} DecodeErrorAfterRows(input: Input, failure: Option<string>, format: string, lib: Library,
                                                faults: nat -> Xlsx.XlsxIo, hs: seq<string>)
    requires Reaches(Some(input), true, format) && input.decodeError.Some?
    ensures var out := Run(Some(input), true, failure, format, lib, faults, hs);
      var p := Consume(lib, FormatKind(format).value, hs, input.records, faults);
      out.written.None? && FinalizeCall !in out.trace &&
      (p.err.None? ==> out.err == Some(DecodeError(input.decodeError.value))) &&
      (p.err.None? && |input.records| > 0 ==> |out.trace| == |input.records| + 1) &&
      (p.err.None? ==> out.trace == ExpectedCalls(lib, hs, input.records)) &&
      (p.err.Some? ==> out.err == p.err)
  {
    ConsumeTrace(lib, FormatKind(format).value, hs, input.records, faults);
  }

  /** The text records the delimited-text exporter holds after the loop: the header, then one per record. */
  function CsvLog(lib: Library, hs: seq<string>, records: seq<Record>): (log: seq<seq<string>>)
    ensures |log| == if |records| == 0 then 0 else |records| + 1
  {
    if |records| == 0 then []
    else [hs] + seq(|records|, i requires 0 <= i < |records| => Csv.StringRecord(lib, BuildRow(lib, hs, records[i])))
  }

  /** One more record appends its text record to the csv log. */
  lemma {:induction false} CsvLogSnoc(lib: Library, hs: seq<string>, records: seq<Record>)
    requires |records| > 1
    ensures CsvLog(lib, hs, records) ==
      Csv.WriteRowStep(lib, CsvLog(lib, hs, records[..|records| - 1]), BuildRow(lib, hs, records[|records| - 1]))
  {
    var n := |records|;
    var init := records[..n - 1];
    var a, b := Csv.WriteRowStep(lib, CsvLog(lib, hs, init), BuildRow(lib, hs, records[n - 1])), CsvLog(lib, hs, records);
    forall i | 1 <= i < n ensures a[i] == b[i] {
      assert records[i - 1] == init[i - 1];
    }
  }

  /** The csv loop never fails and leaves the log CsvLog. */
  lemma {:induction false} CsvConsume(lib: Library, hs: seq<string>, records: seq<Record>, faults: nat -> Xlsx.XlsxIo)
    ensures Consume(lib, CsvKind, hs, records, faults).err.None?
    ensures Consume(lib, CsvKind, hs, records, faults).sink == CsvSink(CsvLog(lib, hs, records))
    decreases |records|
  {
    var n := |records|;
    if n > 1 {
      CsvConsume(lib, hs, records[..n - 1], faults);
      CsvLogSnoc(lib, hs, records);
    } else if n == 1 {
      assert CsvLog(lib, hs, records) == [hs, Csv.StringRecord(lib, BuildRow(lib, hs, records[0]))];
    }
  }

  /**
   * CSV end to end: with records and a decoder that finishes cleanly, the
   * output receives the header and one text record per JSON record, in order;
   * an output that fails gives its error and receives nothing.
   */
  lemma {:induction false} CsvEndToEnd(records: seq<Record>, failure: Option<string>, lib: Library,
                                       faults: nat -> Xlsx.XlsxIo, hs: seq<string>)
    ensures var out := Run(Some(Input(ArrayStart, records, None)), true, failure, FormatCSV, lib, faults, hs);
      (failure.None? ==> out.err.None? && out.written == Some(CsvDocument(CsvLog(lib, hs, records)))) &&
      (failure.Some? ==> out.err == Some(SinkError(failure.value)) && out.written.None?) &&
      (failure.None? && |records| > 0 ==> |out.written.value.records| == |records| + 1) &&
      |out.trace| == |CsvLog(lib, hs, records)| + 1
  {
    CsvConsume(lib, hs, records, faults);
    ConsumeTrace(lib, CsvKind, hs, records, faults);
  }

  /** No excelize call reports an error. */
  ghost predicate Faultless(faults: nat -> Xlsx.XlsxIo) {
    forall c: nat :: faults(c) == Xlsx.NoFaults
  }

  /** One more record adds its row to Rows. */
  lemma {:induction false} RowsSnoc(lib: Library, hs: seq<string>, records: seq<Record>)
    requires |records| > 0
    ensures Rows(lib, hs, records) == Rows(lib, hs, records[..|records| - 1]) + [BuildRow(lib, hs, records[|records| - 1])]
  {
    var init := records[..|records| - 1];
    var a, b := Rows(lib, hs, records), Rows(lib, hs, init) + [BuildRow(lib, hs, records[|records| - 1])];
    forall i | 0 <= i < |a| ensures a[i] == b[i] {
      if i < |init| {
        assert records[i] == init[i];
      }
    }
  }

  /** Without faults, the first turn of the xlsx loop leaves the workbook of its one row. */
  lemma {:induction false} XlsxFirstTurn(lib: Library, hs: seq<string>, rec: Record, faults: nat -> Xlsx.XlsxIo)
    requires faults(0) == Xlsx.NoFaults && faults(1) == Xlsx.NoFaults
    ensures var q := ConsumeOne(lib, hs, Progress(XlsxSink(Xlsx.Fresh()), [], None), rec, true, faults);
      q.err.None? && q.sink == XlsxSink(Xlsx.StateOf(hs, [BuildRow(lib, hs, rec)]))
  {
    var io := Xlsx.NoFaults;
    Xlsx.InitRefinesLayout(hs, io);
    assert Xlsx.FirstFault([io.openStream, io.headerRow]) == None;
    Xlsx.WriteRowRefinesLayout(hs, [], BuildRow(lib, hs, rec), io);
    assert Xlsx.FirstFault(Xlsx.Consulted(false, io)) == None;
    assert [] + [BuildRow(lib, hs, rec)] == [BuildRow(lib, hs, rec)];
  }

  /** Without faults, a later turn of the xlsx loop adds the record's row to the workbook. */
  lemma {:induction false} XlsxNextTurn(lib: Library, hs: seq<string>, rows: seq<seq<Slot>>, trace: seq<Call>,
                                        rec: Record, faults: nat -> Xlsx.XlsxIo)
    requires faults(|trace|) == Xlsx.NoFaults
    ensures var q := ConsumeOne(lib, hs, Progress(XlsxSink(Xlsx.StateOf(hs, rows)), trace, None), rec, false, faults);
      q.err.None? && q.sink == XlsxSink(Xlsx.StateOf(hs, rows + [BuildRow(lib, hs, rec)]))
  {
    var io := Xlsx.NoFaults;
    Xlsx.WriteRowRefinesLayout(hs, rows, BuildRow(lib, hs, rec), io);
    assert Xlsx.FirstFault(Xlsx.Consulted(true, io)) == None && Xlsx.FirstFault(Xlsx.Consulted(false, io)) == None;
  }

  /** XlsxConsume for a single record. */
  lemma {:induction false} XlsxConsumeFirst(lib: Library, hs: seq<string>, records: seq<Record>, faults: nat -> Xlsx.XlsxIo)
    requires Faultless(faults) && |records| == 1
    ensures Consume(lib, XlsxKind, hs, records, faults).err.None?
    ensures Consume(lib, XlsxKind, hs, records, faults).sink == XlsxSink(Xlsx.StateOf(hs, Rows(lib, hs, records)))
  {
    assert Consume(lib, XlsxKind, hs, records[..0], faults) == Progress(XlsxSink(Xlsx.Fresh()), [], None);
    ConsumeSnoc(lib, XlsxKind, hs, records, faults, 0);
    assert records[..1] == records;
    XlsxFirstTurn(lib, hs, records[0], faults);
    RowsSnoc(lib, hs, records);
    assert Rows(lib, hs, records) == [BuildRow(lib, hs, records[0])];
  }

  /** XlsxConsume for one record more than a prefix it holds for. */
  lemma {:induction false} XlsxConsumeSnoc(lib: Library, hs: seq<string>, records: seq<Record>, faults: nat -> Xlsx.XlsxIo)
    requires Faultless(faults) && |records| > 1
    requires Consume(lib, XlsxKind, hs, records[..|records| - 1], faults) ==
      Progress(XlsxSink(Xlsx.StateOf(hs, Rows(lib, hs, records[..|records| - 1]))),
               Consume(lib, XlsxKind, hs, records[..|records| - 1], faults).trace, None)
    ensures Consume(lib, XlsxKind, hs, records, faults).err.None?
    ensures Consume(lib, XlsxKind, hs, records, faults).sink == XlsxSink(Xlsx.StateOf(hs, Rows(lib, hs, records)))
  {
    var n := |records|;
    var prev := Consume(lib, XlsxKind, hs, records[..n - 1], faults);
    ConsumeSnoc(lib, XlsxKind, hs, records, faults, n - 1);
    assert records[..n] == records;
    XlsxNextTurn(lib, hs, Rows(lib, hs, records[..n - 1]), prev.trace, records[n - 1], faults);
    RowsSnoc(lib, hs, records);
  }

  /** Without faults the xlsx loop leaves the exporter holding the rows of the records, laid out sheet by sheet. */
  lemma {:induction false} XlsxConsume(lib: Library, hs: seq<string>, records: seq<Record>, faults: nat -> Xlsx.XlsxIo)
    requires Faultless(faults)
    ensures Consume(lib, XlsxKind, hs, records, faults).err.None?
    ensures Consume(lib, XlsxKind, hs, records, faults).sink ==
      XlsxSink(if |records| == 0 then Xlsx.Fresh() else Xlsx.StateOf(hs, Rows(lib, hs, records)))
    decreases |records|
  {
    var n := |records|;
    if n == 1 {
      XlsxConsumeFirst(lib, hs, records, faults);
    } else if n > 1 {
      XlsxConsume(lib, hs, records[..n - 1], faults);
      XlsxConsumeSnoc(lib, hs, records, faults);
    }
  }

  /**
   * xlsx end to end without faults: the workbook written is the layout of the
   * records' rows (see LayoutPlacement and LayoutShape), and reading its
   * sheets back in order gives the rows again.
   */
  lemma {:induction false} XlsxEndToEnd(records: seq<Record>, lib: Library, faults: nat -> Xlsx.XlsxIo, hs: seq<string>)
    requires Faultless(faults) && |records| > 0
    ensures var out := Run(Some(Input(ArrayStart, records, None)), true, None, FormatXLSX, lib, faults, hs);
      var rows := Rows(lib, hs, records);
      out.err.None? && out.written == Some(XlsxDocument(Layout(hs, rows))) &&
      DataRows(Layout(hs, rows), 1, SheetCount(|rows|)) == rows
  {
    var rows := Rows(lib, hs, records);
    XlsxConsume(lib, hs, records, faults);
    ConsumeTrace(lib, XlsxKind, hs, records, faults);
    assert faults(|records| + 1) == Xlsx.NoFaults;
    Xlsx.FinalizeOfLayout(hs, rows, Xlsx.NoFaults);
  }

  /**
   * An xlsx run over an empty array reaches Finalize with no stream writer
   * open: FinalizeAsWritten does not apply to it, and the corrected Finalize
   * writes the untouched new workbook.
   */
  lemma {:induction false} EmptyXlsxRun(lib: Library, faults: nat -> Xlsx.XlsxIo, hs: seq<string>)
    ensures Consume(lib, XlsxKind, hs, [], faults).sink == XlsxSink(Xlsx.Fresh())
    ensures Xlsx.Fresh().streamWriter.None?
    ensures var out := Run(Some(Input(ArrayStart, [], None)), true, None, FormatXLSX, lib, faults, hs);
      out == Outcome(None, [FinalizeCall], Some(XlsxDocument(map[SheetName(1) := map[]])))
  {
  }
}
