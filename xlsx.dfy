/**
 * The spreadsheet exporter of internal/export/xlsx.go: a stream writer per
 * sheet, and a rollover to a new sheet, with the same header, once a sheet
 * has MaxRowsPerSheet rows.
 *
 * The excelize workbook is kept as sheet name -> row number -> row; cell
 * names, XML and zip serialisation are not modelled. Each excelize call that
 * can fail takes its outcome from an `XlsxIo` value.
 */
module Xlsx {
  import opened Wrappers
  import opened Converter
  import opened Io
  import opened Sheets

  /** The fields of the exporter. `streamWriter` is the sheet the open stream writer writes, if any. */
  datatype XlsxState = XlsxState(
    sheets: map<string, Sheet>,
    streamWriter: Option<string>,
    sheetIndex: Positive,
    currentRow: nat,
    headers: seq<string>)

  /**
   * The errors excelize reports, one per call site: StreamWriter.Flush,
   * File.NewStreamWriter, the SetRow of the header and the SetRow of a data row.
   */
  datatype XlsxIo = XlsxIo(
    flush: Option<string>,
    openStream: Option<string>,
    headerRow: Option<string>,
    dataRow: Option<string>)

  const NoFaults := XlsxIo(None, None, None, None)

  /** newXLSXExporter: a new workbook (it has an empty Sheet1), sheet 1, row 1. */
  function Fresh(): XlsxState {
    XlsxState(map[SheetName(1) := map[]], None, 1, 1, [])
  }

  /** File.NewSheet: adds an empty sheet unless one of that name exists. */
  function NewSheet(sheets: map<string, Sheet>, name: string): map<string, Sheet> {
    if name in sheets then sheets else sheets[name := map[]]
  }

  /** StreamWriter.SetRow: row j of sheet `name` becomes `row`. */
  function PutRow(sheets: map<string, Sheet>, name: string, j: nat, row: seq<Slot>): (r: map<string, Sheet>)
    ensures name in r && j in r[name] && r[name][j] == row
    ensures forall other :: other in sheets && other != name ==> other in r && r[other] == sheets[other]
  {
    sheets[name := WithRow(if name in sheets then sheets[name] else map[], j, row)]
  }

  /**
   * Init: name the sheet of `sheetIndex`, open a stream writer on it (which
   * starts the sheet afresh) and write the header at row 1.
   */
  function InitStep(s: XlsxState, headers: seq<string>, io: XlsxIo): (r: Step<XlsxState>)
    ensures r.err.None? ==> r.next.streamWriter == Some(SheetName(s.sheetIndex))
  {
    var name := SheetName(s.sheetIndex);
    // for sheet 1, SetSheetName("Sheet1", "Sheet1") changes nothing
    var named := s.(headers := headers,
                    sheets := if s.sheetIndex > 1 then NewSheet(s.sheets, name) else s.sheets);
    if io.openStream.Some? then
      Step(named, Some(SinkError(io.openStream.value)))
    else
      var withWriter := named.(streamWriter := Some(name), sheets := named.sheets[name := map[]]);
      if io.headerRow.Some? then
        Step(withWriter, Some(SinkError(io.headerRow.value)))
      else
        Step(withWriter.(sheets := PutRow(withWriter.sheets, name, 1, HeaderRow(headers)), currentRow := 2), None)
  }

  /** SetRow at the current row of the open stream writer, then the row counter moves on. */
  function SetRowStep(s: XlsxState, row: seq<Slot>, io: XlsxIo): (r: Step<XlsxState>)
    requires s.streamWriter.Some?
    ensures r.next.streamWriter == s.streamWriter
  {
    if io.dataRow.Some? then
      Step(s, Some(SinkError(io.dataRow.value)))
    else
      Step(s.(sheets := PutRow(s.sheets, s.streamWriter.value, s.currentRow, row), currentRow := s.currentRow + 1), None)
  }

  /** WriteRow: past the last row of a sheet, flush it and Init the next sheet first. */
  function WriteRowStep(s: XlsxState, row: seq<Slot>, io: XlsxIo): (r: Step<XlsxState>)
    requires s.streamWriter.Some?
    ensures r.err.None? ==> r.next.streamWriter.Some?
  {
    if s.currentRow > MaxRowsPerSheet then
      if io.flush.Some? then
        Step(s, Some(SinkError(io.flush.value)))
      else
        var init := InitStep(s.(sheetIndex := s.sheetIndex + 1, currentRow := 1), s.headers, io);
        if init.err.Some? then init else SetRowStep(init.next, row, io)
    else
      SetRowStep(s, row, io)
  }

  /**
   * WriteTo: flush the stream writer, then write the workbook. Flushing is
   * skipped when no stream writer was ever opened (see FinalizeAsWritten).
   */
  function FinalizeStep(s: XlsxState, io: XlsxIo, failure: Option<string>): (r: Written)
    ensures r.Wrote? <==> (s.streamWriter.None? || io.flush.None?) && failure.None?
    ensures r.Wrote? ==> r.doc == XlsxDocument(s.sheets)
    ensures r.Failed? && s.streamWriter.Some? && io.flush.Some? ==> r.error == SinkError(io.flush.value)
  {
    if s.streamWriter.Some? && io.flush.Some? then Failed(SinkError(io.flush.value))
    else if failure.Some? then Failed(SinkError(failure.value))
    else Wrote(XlsxDocument(s.sheets))
  }

  /**
   * WriteTo as the source has it: it calls Flush on the stream writer
   * unconditionally, which is only defined once Init has opened one.
   */
  function FinalizeAsWritten(s: XlsxState, io: XlsxIo, failure: Option<string>): (r: Written)
    requires s.streamWriter.Some?
    ensures r == FinalizeStep(s, io, failure)
  {
    if io.flush.Some? then Failed(SinkError(io.flush.value))
    else if failure.Some? then Failed(SinkError(failure.value))
    else Wrote(XlsxDocument(s.sheets))
  }

  /** The cells of the header row Init writes: one string cell per header. */
  method HeaderCells(headers: seq<string>) returns (cells: array<Slot>)
    ensures fresh(cells) && cells[..] == HeaderRow(headers)
  {
    cells := new Slot[|headers|];
    var i := 0;
    while i < |headers|
      invariant 0 <= i <= |headers|
      invariant forall j :: 0 <= j < i ==> cells[j] == Val(Text(headers[j]))
    {
      cells[i] := Val(Text(headers[i]));
      i := i + 1;
    }
    assert cells[..] == HeaderRow(headers);
  }

  /** The exporter after Init and one WriteRow per element of `rows`, all successful. */
  function StateOf(headers: seq<string>, rows: seq<seq<Slot>>): (s: XlsxState)
    ensures s.streamWriter.Some?
  {
    var k := SheetCount(|rows|);
    XlsxState(Layout(headers, rows), Some(SheetName(k)), k, NextRow(|rows|), headers)
  }

  /** The first fault among the excelize calls made, as the error returned. */
  function FirstFault(faults: seq<Option<string>>): (r: Option<Error>)
    ensures r.None? <==> forall i :: 0 <= i < |faults| ==> faults[i].None?
    ensures r.Some? ==> exists i :: 0 <= i < |faults| && faults[i].Some? && r == Some(SinkError(faults[i].value))
  {
    if |faults| == 0 then None
    else if faults[0].Some? then Some(SinkError(faults[0].value))
    else FirstFault(faults[1..])
  }

  /** The excelize calls a WriteRow makes, in order: with a rollover, Flush and a full Init come first. */
  function Consulted(rollover: bool, io: XlsxIo): seq<Option<string>> {
    if rollover then [io.flush, io.openStream, io.headerRow, io.dataRow] else [io.dataRow]
  }

  /** Init on a new exporter yields the workbook of no rows, unless excelize reports an error. */
  lemma {:induction false} InitRefinesLayout(headers: seq<string>, io: XlsxIo)
    ensures InitStep(Fresh(), headers, io).err == FirstFault([io.openStream, io.headerRow])
    ensures InitStep(Fresh(), headers, io).err.None? ==> InitStep(Fresh(), headers, io).next == StateOf(headers, [])
  {
    var st := InitStep(Fresh(), headers, io);
    if st.err.None? {
      LayoutAt(headers, [], 1);
      var a, b := st.next.sheets, Layout(headers, []);
      forall name | name in b ensures name in a && a[name] == b[name] {
        LayoutNames(headers, [], name);
        assert SheetRows(headers, [], 1) == map[1 := HeaderRow(headers)];
      }
      assert a == b;
    }
  }

  /** A WriteRow past the last row of a sheet opens the next sheet with the header and the row. */
  lemma {:induction false} RolloverStep(s: XlsxState, r: seq<Slot>, io: XlsxIo)
    requires s.streamWriter.Some? && s.currentRow > MaxRowsPerSheet
    ensures WriteRowStep(s, r, io).err == FirstFault(Consulted(true, io))
    ensures var newName := SheetName(s.sheetIndex + 1);
      WriteRowStep(s, r, io).err.None? ==>
      WriteRowStep(s, r, io).next == s.(sheets := s.sheets[newName := map[1 := HeaderRow(s.headers), 2 := r]],
                                        streamWriter := Some(newName), sheetIndex := s.sheetIndex + 1, currentRow := 3)
  {
    RolloverFault(s, r, io);
    if io.flush.None? && io.openStream.None? && io.headerRow.None? && io.dataRow.None? {
      RolloverSheets(s, r, io);
    }
  }

  /** The error of a rollover WriteRow is the first fault of Flush, Init's two calls and SetRow. */
  lemma {:induction false} RolloverFault(s: XlsxState, r: seq<Slot>, io: XlsxIo)
    requires s.streamWriter.Some? && s.currentRow > MaxRowsPerSheet
    ensures WriteRowStep(s, r, io).err == FirstFault(Consulted(true, io))
  {
    var c := Consulted(true, io);
    if io.flush.None? {
      assert FirstFault(c) == FirstFault(c[1..]);
      if io.openStream.None? {
        assert FirstFault(c[1..]) == FirstFault(c[2..]);
        if io.headerRow.None? {
          assert FirstFault(c[2..]) == FirstFault([io.dataRow]);
        }
      }
    }
  }

  /**
   * A successful rollover WriteRow opens the next sheet holding the header and
   * the row; a sheet of that name, had there been one, is replaced, because
   * the new stream writer starts it empty.
   */
  lemma {:induction false} RolloverSheets(s: XlsxState, r: seq<Slot>, io: XlsxIo)
    requires s.streamWriter.Some? && s.currentRow > MaxRowsPerSheet
    requires io.flush.None? && io.openStream.None? && io.headerRow.None? && io.dataRow.None?
    ensures var newName := SheetName(s.sheetIndex + 1);
      WriteRowStep(s, r, io).next == s.(sheets := s.sheets[newName := map[1 := HeaderRow(s.headers), 2 := r]],
                                        streamWriter := Some(newName), sheetIndex := s.sheetIndex + 1, currentRow := 3)
  {
    var newName := SheetName(s.sheetIndex + 1);
    assert NewSheet(s.sheets, newName)[newName := map[]] == s.sheets[newName := map[]];
    assert WriteRowStep(s, r, io).next.sheets == s.sheets[newName := map[1 := HeaderRow(s.headers), 2 := r]];
  }

  /** A WriteRow within a sheet puts the row at the current row of the open sheet. */
  lemma {:induction false} SameSheetStep(s: XlsxState, r: seq<Slot>, io: XlsxIo)
    requires s.streamWriter.Some? && s.currentRow <= MaxRowsPerSheet
    requires s.streamWriter.value in s.sheets
    ensures WriteRowStep(s, r, io).err == FirstFault(Consulted(false, io))
    ensures var name := s.streamWriter.value;
      WriteRowStep(s, r, io).err.None? ==>
      WriteRowStep(s, r, io).next == s.(sheets := s.sheets[name := WithRow(s.sheets[name], s.currentRow, r)],
                                        currentRow := s.currentRow + 1)
  {
  }

  /**
   * WriteRow on the exporter holding `rows` yields the exporter holding
   * rows + [r], on the same sheet or, past its last row, on a new one; it fails
   * exactly when one of the excelize calls it makes reports an error.
   */
  lemma {:induction false} WriteRowRefinesLayout(headers: seq<string>, rows: seq<seq<Slot>>, r: seq<Slot>, io: XlsxIo)
    ensures WriteRowStep(StateOf(headers, rows), r, io).err ==
      FirstFault(Consulted(NextRow(|rows|) > MaxRowsPerSheet, io))
    ensures WriteRowStep(StateOf(headers, rows), r, io).err.None? ==>
      WriteRowStep(StateOf(headers, rows), r, io).next == StateOf(headers, rows + [r])
  {
    if NextRow(|rows|) > MaxRowsPerSheet {
      WriteRowNewSheet(headers, rows, r, io);
    } else {
      WriteRowSameSheet(headers, rows, r, io);
    }
  }

  /** WriteRowRefinesLayout when the open sheet is full. */
  lemma {:induction false} WriteRowNewSheet(headers: seq<string>, rows: seq<seq<Slot>>, r: seq<Slot>, io: XlsxIo)
    requires NextRow(|rows|) > MaxRowsPerSheet
    ensures WriteRowStep(StateOf(headers, rows), r, io).err == FirstFault(Consulted(true, io))
    ensures WriteRowStep(StateOf(headers, rows), r, io).err.None? ==>
      WriteRowStep(StateOf(headers, rows), r, io).next == StateOf(headers, rows + [r])
  {
    var s := StateOf(headers, rows);
    var k := SheetCount(|rows|);
    AppendNewSheet(headers, rows, r);
    assert s.sheetIndex == k && s.sheets == Layout(headers, rows);
    RolloverStep(s, r, io);
    assert StateOf(headers, rows + [r]).sheetIndex == k + 1;
  }

  /** WriteRowRefinesLayout when the open sheet has room. */
  lemma {:induction false} WriteRowSameSheet(headers: seq<string>, rows: seq<seq<Slot>>, r: seq<Slot>, io: XlsxIo)
    requires NextRow(|rows|) <= MaxRowsPerSheet
    ensures WriteRowStep(StateOf(headers, rows), r, io).err == FirstFault(Consulted(false, io))
    ensures WriteRowStep(StateOf(headers, rows), r, io).err.None? ==>
      WriteRowStep(StateOf(headers, rows), r, io).next == StateOf(headers, rows + [r])
  {
    var s := StateOf(headers, rows);
    var k := SheetCount(|rows|);
    AppendSameSheet(headers, rows, r);
    LayoutAt(headers, rows, k);
    SameSheetStep(s, r, io);
    assert StateOf(headers, rows + [r]).sheetIndex == k;
  }

  /** The workbook of a successful run holds the rows, in order, sheet after sheet. */
  lemma {:induction false} FinalizeOfLayout(headers: seq<string>, rows: seq<seq<Slot>>, io: XlsxIo)
    requires io.flush.None?
    ensures FinalizeStep(StateOf(headers, rows), io, None) == Wrote(XlsxDocument(Layout(headers, rows)))
    ensures DataRows(Layout(headers, rows), 1, SheetCount(|rows|)) == rows
  {
    LayoutReadsBack(headers, rows);
  }

  /** The excelize workbook, its stream writer and the position of the next row. */
  class XlsxExporter {
    var sheets: map<string, Sheet>
    var streamWriter: Option<string>
    var sheetIndex: Positive
    var currentRow: nat
    var headers: seq<string>

    function State(): XlsxState
      reads this
    {
      XlsxState(sheets, streamWriter, sheetIndex, currentRow, headers)
    }

    constructor ()
      ensures State() == Fresh()
    {
      sheets := map[SheetName(1) := map[]];
      streamWriter := None;
      sheetIndex := 1;
      currentRow := 1;
      headers := [];
    }

    method Init(headers: seq<string>, io: XlsxIo) returns (err: Option<Error>)
      modifies this
      ensures State() == InitStep(old(State()), headers, io).next
      ensures err == InitStep(old(State()), headers, io).err
    {
      this.headers := headers;
      var name := SheetName(sheetIndex);
      if sheetIndex > 1 {
        sheets := NewSheet(sheets, name);
      }
      if io.openStream.Some? {
        return Some(SinkError(io.openStream.value));
      }
      streamWriter := Some(name);
      sheets := sheets[name := map[]];
      var headerRow := HeaderCells(headers);
      if io.headerRow.Some? {
        return Some(SinkError(io.headerRow.value));
      }
      sheets := PutRow(sheets, name, 1, headerRow[..]);
      currentRow := 2;
      err := None;
    }

    /** WriteRow of row[..n]; the exporter keeps a copy, the array is left as it is. */
    method WriteRow(row: array<Slot>, n: nat, io: XlsxIo) returns (err: Option<Error>)
      requires n <= row.Length
      requires streamWriter.Some?
      modifies this
      ensures State() == WriteRowStep(old(State()), row[..n], io).next
      ensures err == WriteRowStep(old(State()), row[..n], io).err
    {
      if currentRow > MaxRowsPerSheet {
        if io.flush.Some? {
          return Some(SinkError(io.flush.value));
        }
        sheetIndex := sheetIndex + 1;
        currentRow := 1;
        err := Init(headers, io);
        if err.Some? {
          return;
        }
      }
      if io.dataRow.Some? {
        return Some(SinkError(io.dataRow.value));
      }
      sheets := PutRow(sheets, streamWriter.value, currentRow, row[..n]);
      currentRow := currentRow + 1;
      err := None;
    }

    /** WriteTo: flush the open stream writer, if any, then write the workbook to `w`. */
    method WriteTo(w: Destination, io: XlsxIo) returns (err: Option<Error>)
      modifies w
      ensures FinalizeStep(State(), io, w.failure).Failed? ==>
        err == Some(FinalizeStep(State(), io, w.failure).error) && w.written == old(w.written)
      ensures FinalizeStep(State(), io, w.failure).Wrote? ==>
        err == None && w.written == old(w.written) + [FinalizeStep(State(), io, w.failure).doc]
    {
      if streamWriter.Some? && io.flush.Some? {
        return Some(SinkError(io.flush.value));
      }
      err := w.Write(XlsxDocument(sheets));
    }
  }
}
