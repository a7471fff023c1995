/**
 * What the exporters and the engine share: the error values of the program,
 * the slots of a row, the documents an exporter writes out, and the output
 * stream (an io.Writer) they are written to.
 */
module Io {
  import opened Wrappers
  import opened Converter

  /** The errors the program returns, one constructor per origin. */
  datatype Error =
    | StreamsNotSet                  // the input or the output stream is nil
    | UnsupportedFormat(format: string)
    | NotAnArray                     // the first JSON token is not '['
    | DecodeError(cause: string)     // encoding/json could not decode an element
    | SinkError(cause: string)       // excelize or the output writer reported an error
  {
    /** The text of the error as the program formats it. */
    function Message(): string {
      match this
      case StreamsNotSet => "input and output streams must be set"
      case UnsupportedFormat(f) => "unsupported format: " + f
      case NotAnArray => "expected JSON array at the root"
      case DecodeError(c) => "decode error: " + c
      case SinkError(c) => c
    }
  }

  /** One element of a row ([]interface{}): nil, or a converted cell. */
  datatype Slot = Nil | Val(cell: Cell)

  /** A spreadsheet sheet: row number (from 1) to the values of that row. */
  type Sheet = map<nat, seq<Slot>>

  /** What an exporter writes to the output stream at the end. */
  datatype Document =
    | CsvDocument(records: seq<seq<string>>)      // the buffered CSV records, before encoding
    | XlsxDocument(sheets: map<string, Sheet>)    // the workbook, before serialisation

  /** The state after one exporter call and the error that call returned. */
  datatype Step<S> = Step(next: S, err: Option<Error>)

  /** The outcome of finalising an exporter: the document written, or the error. */
  datatype Written = Wrote(doc: Document) | Failed(error: Error)

  /**
   * The output stream. `failure` is the error its Write reports, if it
   * reports one; a failed write leaves `written` as it was.
   */
  class Destination {
    var written: seq<Document>
    const failure: Option<string>

    constructor (failure: Option<string>)
      ensures written == [] && this.failure == failure
    {
      written := [];
      this.failure := failure;
    }

    method Write(doc: Document) returns (err: Option<Error>)
      modifies this
      ensures failure.None? ==> err == None && written == old(written) + [doc]
      ensures failure.Some? ==> err == Some(SinkError(failure.value)) && written == old(written)
    {
      if failure.Some? {
        err := Some(SinkError(failure.value));
      } else {
        written := written + [doc];
        err := None;
      }
    }
  }
}
