/**
 * The delimited-text exporter of internal/export/csv.go.
 *
 * The csv.Writer writes into an in-memory bytes.Buffer; its records are kept
 * here as a log, before quoting and line encoding. A bytes.Buffer never
 * reports a write error, so Init and WriteRow cannot fail.
 */
module Csv {
  import opened Wrappers
  import opened Converter
  import opened Io

  /** "%v" applied to one slot of a row. */
  function FormatSlot(lib: Library, v: Slot): string {
    match v
    case Nil => "<nil>"
    case Val(Text(s)) => s
    case Val(Number(f)) => lib.sprintFloat(f)
    case Val(Bool(b)) => if b then "true" else "false"
    case Val(Time(t)) => lib.sprintTime(t)
  }

  /** The string record WriteRow builds from a row. */
  function StringRecord(lib: Library, row: seq<Slot>): (r: seq<string>)
    ensures |r| == |row|
  {
    seq(|row|, i requires 0 <= i < |row| => FormatSlot(lib, row[i]))
  }

  /** The log after Init: the header becomes one record. */
  function InitStep(log: seq<seq<string>>, headers: seq<string>): seq<seq<string>> {
    log + [headers]
  }

  /** The log after WriteRow: one more record. */
  function WriteRowStep(lib: Library, log: seq<seq<string>>, row: seq<Slot>): seq<seq<string>> {
    log + [StringRecord(lib, row)]
  }

  /** What ExportTo writes: the buffer as it stands, or the writer's error. */
  function FinalizeStep(log: seq<seq<string>>, failure: Option<string>): Written {
    if failure.Some? then Failed(SinkError(failure.value)) else Wrote(CsvDocument(log))
  }

  /** Records are appended in call order and earlier ones are never altered. */
  lemma {:induction false} AppendOnly(lib: Library, log: seq<seq<string>>, row: seq<Slot>, i: nat)
    requires i < |log|
    ensures |WriteRowStep(lib, log, row)| == |log| + 1
    ensures WriteRowStep(lib, log, row)[i] == log[i]
    ensures WriteRowStep(lib, log, row)[|log|] == StringRecord(lib, row)
  {
  }

  class CsvExporter {
    /** The records written so far, in order. */
    var records: seq<seq<string>>

    constructor ()
      ensures records == []
    {
      records := [];
    }

    method Init(headers: seq<string>) returns (err: Option<Error>)
      modifies this
      ensures err == None
      ensures records == InitStep(old(records), headers)
    {
      records := records + [headers];
      err := None;
    }

    /** Appends the "%v" form of row[..n]; the row itself is left as it is. */
    method WriteRow(lib: Library, row: array<Slot>, n: nat) returns (err: Option<Error>)
      requires n <= row.Length
      modifies this
      ensures err == None
      ensures records == WriteRowStep(lib, old(records), row[..n])
    {
      var stringRow := new string[n];
      var i := 0;
      while i < n
        modifies stringRow
        invariant 0 <= i <= n
        invariant forall j :: 0 <= j < i ==> stringRow[j] == FormatSlot(lib, row[j])
      {
        stringRow[i] := FormatSlot(lib, row[i]);
        i := i + 1;
      }
      assert stringRow[..] == StringRecord(lib, row[..n]);
      records := records + [stringRow[..]];
      err := None;
    }

    /** Writes the buffered records to `w`; the buffer itself is not drained. */
    method ExportTo(w: Destination) returns (err: Option<Error>)
      modifies w
      ensures FinalizeStep(records, w.failure).Failed? ==>
        err == Some(FinalizeStep(records, w.failure).error) && w.written == old(w.written)
      ensures FinalizeStep(records, w.failure).Wrote? ==>
        err == None && w.written == old(w.written) + [FinalizeStep(records, w.failure).doc]
    {
      err := w.Write(CsvDocument(records));
    }
  }
}
