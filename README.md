# go-json2excel in Dafny

go-json2excel converts a JSON array of objects into a spreadsheet, as xlsx or csv. An `Engine` is configured through chained setters: input reader, output writer, and format, which defaults to `"xlsx"`. `Execute` then does the following:

1. It checks the configuration.
2. It builds an exporter with the `NewExporter` factory.
3. It checks that the input opens with `[`.
4. It streams the decoded elements through a goroutine and a channel.
5. From the first record it derives the header: the keys in Go map order, with a key → column map.
6. For every record it assembles a row in a pooled buffer. Each value goes through the normaliser `ConvertDynamic`.
7. It hands the row to the exporter's `WriteRow`, clears the buffer and returns it to the pool.
8. If the decoder reported no error, it finalises the exporter onto the output.

The csv exporter keeps the records as text, with `%v` applied to each value. The xlsx exporter writes through one excelize stream writer per sheet. Once a sheet holds `maxRowsPerSheet` = 1000000 rows, the header and 999999 data rows, it starts a new sheet with the same header. The sheets are named `Sheet1`, `Sheet2`, …

The model has these modules:

- **`Converter`** (converter.dfy): the normaliser.
- **`Io`** (io.dfy): the errors, the row slots, the documents written, and the output stream.
- **`Csv`** (csv.dfy): the csv exporter, a class over its record log.
- **`Sheets`** (sheets.dfy): sheet names, and the closed-form layout of a workbook holding n rows.
- **`Xlsx`** (xlsx.dfy): the xlsx exporter.
  - A class with the exporter's fields.
  - One step function per method.
  - Lemmas proving that `Init` and `WriteRow` keep the workbook equal to the layout of the rows written so far.
- **`Export`** (exporter.dfy): the factory and the common Init / WriteRow / finalise contract of both exporters.
- **`J2e`** (engine.dfy): the engine.
  - `Run` and `Consume`: `Execute` as a function.
  - The `Engine` class.
  - `Execute` and the methods it is built from, each proved against `Run` / `Consume`.
- **`EngineProperties`** (engine_properties.dfy): what `Execute` promises, proved on `Run`.
  - The checks come first.
  - Init is called once, first.
  - Rows are written in input order.
  - The output is written only on success.
  - The csv and xlsx results end to end.

How the Go program's pieces are represented:

- **Strings.** A Go string is a seq<char> with one char per byte.
- **Numbers.** A float64 is an opaque bit pattern.
- **Library code.** `time.Parse(time.RFC3339, …)` and the `%v` renderings are not part of the model. They are the fields of a `Library` value passed as a parameter.
- **excelize errors.** The error each excelize call can report comes from an `XlsxIo` value. The engine's exporter call number c sees `faults(c)`.
- **Output stream.** The stream is a `Destination` whose `Write` either appends the document or reports its error.
- **Decoder.** The decoder's output is an `Input`: the first token, the decoded records, and an optional trailing decode error.

The decoder goroutine is a single producer feeding a single consumer over a FIFO channel. It sends its error to a buffered channel before closing the record channel. `Execute` therefore behaves like the sequential loop over the records followed by the check for that error, and that is how it is modelled. Go's map iteration order is not fixed, so the header order is chosen nondeterministically. `Execute` returns it as the ghost output `headers`, which is proved to list each key of the first record exactly once. `Execute` also returns the exporter calls it made as the ghost output `trace`.

The model keeps these details of the code:

- **Header order.** The header is in map iteration order (pkg/j2e/engine.go:89-92), not the order in which the keys appear in the JSON text.
- **Missing key.** A header key missing from a later record leaves its slot nil (pkg/j2e/engine.go:100-112). It is not an empty string: the csv exporter renders that slot as `<nil>`, and only a JSON `null` becomes `""`.
- **Finalise method.** The exporter interface names its last method `ExportTo` (internal/export/exporter.go:12). The xlsx exporter defines `WriteTo` (internal/export/xlsx.go:77), and the engine calls `WriteTo` (pkg/j2e/engine.go:131). The model has one `Finalize`, dispatching to the csv exporter's `ExportTo` or the xlsx exporter's `WriteTo`.
- **Buffer kept.** The csv `ExportTo` writes `buffer.Bytes()` (internal/export/csv.go:40). The buffer keeps its records after the write.

## Model

| member | source | states |
|---|---|---|
| Converter.ConvertDynamic | internal/converter/strategy.go:10-27 | It returns a timestamp exactly for a string that has length at least 10 and `-` or `/` at byte 4, and that parses as RFC 3339; the timestamp is the parse result. Every other string comes back unchanged. Numbers and booleans pass through, null becomes `""`, and arrays and objects become their `%v` text. |
| Converter.NoParseWithoutDateShape | internal/converter/strategy.go:14-19 | A string failing the length / byte-4 check comes back unchanged whatever the parser does, so it is never parsed. |
| Converter.TextIsFixedPoint | internal/converter/strategy.go:14-19 | A string that comes back as a string comes back unchanged, and converting the result again gives the same string. |
| Converter.ConversionExamples | internal/converter/strategy.go:12-23 | `"hello"` stays text, null becomes `""`, `true` stays a boolean, `"2024-01-15T10:00:00Z"` becomes its parsed timestamp, and the date-shaped `"not-a-date-val"`, which does not parse, stays text. |
| Io.Destination.Write | pkg/j2e/engine.go:131 | The output stream either appends the document or reports its error and keeps what it had. |
| Csv.CsvExporter.constructor | internal/export/csv.go:15-21 | A new csv exporter holds no records. |
| Csv.CsvExporter.Init | internal/export/csv.go:23-25 | Init appends exactly the header as one record and never fails. |
| Csv.CsvExporter.WriteRow | internal/export/csv.go:27-33 | WriteRow appends one record, the `%v` form of each slot of the row, and never fails. It changes only the exporter, not the row. |
| Csv.AppendOnly | internal/export/csv.go:24-32 | A WriteRow adds one record at the end and leaves the earlier records as they were. |
| Csv.CsvExporter.ExportTo | internal/export/csv.go:35-42 | ExportTo writes exactly the buffered records, or returns the writer's error and writes nothing. |
| Export.FormatKind | internal/export/exporter.go:18-31 | `"xlsx"` and `"csv"` name the two formats, matched exactly; any other string, `"CSV"` included, names none. |
| Export.NewExporter | internal/export/exporter.go:24-33 | It returns an exporter if and only if there is no error, and if and only if the format is known. The error is `unsupported format: <format>`. The exporter is newly allocated (shares no state) and in its initial state. |
| Export.Exporter.Init | internal/export/exporter.go:10 | Init on either variant is the step SinkInit of that variant. |
| Export.Exporter.WriteRow | internal/export/exporter.go:11 | WriteRow on either variant is the step SinkWriteRow of that variant. |
| Export.Exporter.Finalize | internal/export/exporter.go:12 | Finalise either writes the variant's document and returns no error, or writes nothing and returns the error. |
| Sheets.SheetNameInjective | internal/export/xlsx.go:30 | `Sheet%d` gives distinct names to distinct sheet numbers. |
| Sheets.CountBounds | internal/export/xlsx.go:58-66 | n data rows take the least number of sheets that holds them, at 999999 a sheet. |
| Sheets.NextRow | internal/export/xlsx.go:53-73 | The next free row, after n data rows, lies between 2 and maxRowsPerSheet + 1, and counts n rows on the last sheet. |
| Sheets.PlacementClosedForm | internal/export/xlsx.go:53-73 | The i-th data row (from 0) is in sheet 1 + i div 999999, at row 2 + i mod 999999. |
| Sheets.RowPlacement | internal/export/xlsx.go:58-73 | In the workbook of n rows, data row i sits at its sheet and row, and that row is never past maxRowsPerSheet. |
| Sheets.LayoutPlacement | internal/export/xlsx.go:53-73 | Every data row of the workbook is at sheet 1 + i div 999999, row 2 + i mod 999999. |
| Sheets.LayoutShape | internal/export/xlsx.go:44-58 | Every sheet has the header at row 1 and no row beyond maxRowsPerSheet. |
| Sheets.LayoutNames | internal/export/xlsx.go:30-62 | The sheets are exactly Sheet1 … Sheet{k}, consecutive: every sheet is one of them, and each of them is present. |
| Sheets.LayoutAt | internal/export/xlsx.go:53-73 | Sheet k, for each k from 1 to the sheet count, is present and holds the header and the data rows that belong to sheet k. |
| Sheets.AppendSameSheet | internal/export/xlsx.go:69-73 | A row added while the last sheet has room fills the next row of that sheet; the sheet count stays the same. |
| Sheets.AppendNewSheet | internal/export/xlsx.go:58-70 | A row added to a full last sheet opens one new sheet, with a name not used before, and puts the row at its row 2. |
| Sheets.LayoutReadsBack | internal/export/xlsx.go:53-73 | Reading the data rows back sheet by sheet, from row 2, gives the rows in the order written. |
| Xlsx.XlsxExporter.constructor | internal/export/xlsx.go:20-26 | A new xlsx exporter is at sheet 1, row 1, with an empty Sheet1 and no stream writer. |
| Xlsx.HeaderCells | internal/export/xlsx.go:44-47 | The header row holds the headers, in order, as text cells. |
| Xlsx.XlsxExporter.Init | internal/export/xlsx.go:28-55 | Init on the exporter is InitStep. InitStep names the sheet, opens a stream writer on it, writes the header at row 1 and moves to row 2, and fails at the first excelize error. |
| Xlsx.XlsxExporter.WriteRow | internal/export/xlsx.go:57-75 | WriteRow on the exporter is WriteRowStep. Past maxRowsPerSheet, WriteRowStep first flushes and moves to the next sheet and re-runs Init; then it writes the row at the current row, which it moves on by 1. |
| Xlsx.XlsxExporter.WriteTo | internal/export/xlsx.go:77-82 | WriteTo flushes the stream writer when one is open, then writes the workbook, or returns the first error and writes nothing. |
| Xlsx.InitRefinesLayout | internal/export/xlsx.go:20-55 | Init on a new exporter gives the workbook of no rows: the header at row 1 of Sheet1, row 2 next. Otherwise it returns the first of its excelize errors. |
| Xlsx.WriteRowRefinesLayout | internal/export/xlsx.go:57-75 | WriteRow on the exporter holding rows gives the exporter holding rows + [r]. It fails exactly when one of the excelize calls it makes fails, and returns the first such error. |
| Xlsx.RolloverStep | internal/export/xlsx.go:58-70 | A rollover increases the sheet number by exactly 1. The new sheet holds the same header and the pending row at row 2, and the other sheets are unchanged. A sheet that already had the new name is replaced, because the new stream writer starts it empty. |
| Xlsx.SameSheetStep | internal/export/xlsx.go:69-74 | Without a rollover, the row lands at the current row and the row counter grows by exactly 1. |
| Xlsx.FinalizeOfLayout | internal/export/xlsx.go:77-82 | Finalising the exporter holding rows writes their workbook, which reads back as the rows. |
| Xlsx.FinalizeStep | internal/export/xlsx.go:77-82 | WriteTo succeeds exactly when neither the flush nor the output fails; what it writes is the workbook. |
| Xlsx.FinalizeAsWritten | internal/export/xlsx.go:77-82 | WriteTo as written: Flush on the stream writer is only defined once Init has opened one. |
| J2e.Engine.constructor | pkg/j2e/engine.go:20-25 | A new engine has no streams and the format `"xlsx"`. |
| J2e.Engine.SetInputReader | pkg/j2e/engine.go:27-30 | It sets only the input reader and returns the same engine. |
| J2e.Engine.SetOutputWriter | pkg/j2e/engine.go:32-35 | It sets only the output writer and returns the same engine. |
| J2e.Engine.SetFormat | pkg/j2e/engine.go:37-40 | It sets only the format and returns the same engine. |
| J2e.DeriveHeader | pkg/j2e/engine.go:88-92 | The header lists each key of the first record exactly once, and the header map sends `headers[i]` to i. |
| J2e.FillRow | pkg/j2e/engine.go:107-112 | Starting from nil slots, the first len(headers) slots become the record's row and the slots beyond are left alone. |
| J2e.ClearRow | pkg/j2e/engine.go:118-121 | The first n slots become nil and the rest are left alone. |
| J2e.GetRow | pkg/j2e/engine.go:80-105 | The buffer has room for the header, and every slot is nil. |
| J2e.EmitRow | pkg/j2e/engine.go:99-122 | WriteRow receives the record's row. Every buffer back in the pool has only nil slots. |
| J2e.HandleRecord | pkg/j2e/engine.go:87-122 | One turn of the loop is ConsumeOne: Init with the header on the first record, then WriteRow of the row. |
| J2e.ProcessRecords | pkg/j2e/engine.go:75-123 | The loop's final state, calls and error are Consume over the records, and its header enumerates the first record's keys. |
| J2e.Finish | pkg/j2e/engine.go:125-131 | A loop error comes first, then the decode error; finalise runs only if there is neither. |
| J2e.Engine.Execute | pkg/j2e/engine.go:43-132 | The error, the exporter calls, and what the output receives are those of Run, and the header enumerates the first record's keys. |
| J2e.ConsumeHalts | pkg/j2e/engine.go:93-116 | After the first exporter error the loop stops, and later records change nothing. |
| EngineProperties.RowColumns | pkg/j2e/engine.go:100-112 | Slot `headerMap[k]` of a record's row is ConvertDynamic of the record's value at k, or nil when the record lacks k. |
| EngineProperties.RowIgnoresOtherKeys | pkg/j2e/engine.go:108-111 | Keys outside the header do not affect the row. |
| EngineProperties.ConsumeTrace | pkg/j2e/engine.go:87-123 | The loop's calls are a prefix of Init(header) followed by WriteRow of each record's row, in order; they are all of it when the loop did not fail. |
| EngineProperties.ChecksComeFirst | pkg/j2e/engine.go:44-57 | If a stream is unset, the format is unknown, or the first token is not `[`, Execute makes no exporter call, writes nothing, and returns that error; the checks are made in that order. |
| EngineProperties.WrittenOnlyOnSuccess | pkg/j2e/engine.go:93-131 | The output receives a document if and only if Execute returns no error, and only by the last call, finalise. |
| EngineProperties.RunCalls | pkg/j2e/engine.go:87-131 | Call i is the i-th call of a successful loop, or the final finalise. Finalise takes place if and only if neither the loop nor the decoder failed. |
| EngineProperties.InitOnceFirst | pkg/j2e/engine.go:77-131 | Init is the first call, with the header, and is made exactly once if there is a record and never otherwise. With no records the only call is finalise. |
| EngineProperties.RowsInOrder | pkg/j2e/engine.go:87-116 | The i-th WriteRow receives the row of the i-th record. |
| EngineProperties.DecodeErrorAfterRows | pkg/j2e/engine.go:67-128 | On a decode error, the calls are Init followed by the row of each decoded record, in order, unless the exporter failed first. Execute returns the decode error (or that exporter error), finalise never runs, and nothing is written. |
| EngineProperties.CsvConsume | internal/export/csv.go:23-33 | The csv loop never fails and leaves the header followed by one text record per JSON record. |
| EngineProperties.CsvEndToEnd | pkg/j2e/engine.go:43-132 | A csv run over a clean array writes the header and the records' text rows, in order. With at least one record the document holds one more record than the input, so it is not empty. A failing output gives its error and receives nothing. |
| EngineProperties.XlsxConsume | internal/export/xlsx.go:28-75 | Without excelize errors the xlsx loop leaves the exporter holding the workbook of the records' rows. |
| EngineProperties.XlsxEndToEnd | pkg/j2e/engine.go:43-132 | An xlsx run over a clean array writes the workbook laid out sheet by sheet, which reads back as the records' rows in order. |
| EngineProperties.EmptyXlsxRun | pkg/j2e/engine.go:87-131 | An xlsx run over `[]` reaches finalise with no stream writer open. The corrected finalise then writes the new workbook. |

## Left out

- The decoder goroutine and the channel of capacity 2000 are not modelled, nor is a producer left blocked when the consumer returns early: they are concurrency. The sequential loop followed by the error check has the same observable behaviour.
- encoding/json's tokenizer and decoder are library code. The input is its first token, the decoded records, and an optional trailing error. `Execute` is given this `Input` in place of an io.Reader.
- `time.Parse` with the RFC 3339 layout is library code, so it is the `parseRfc3339` field of `Library`, with no constraint.
- float64 arithmetic is not modelled. All `%v` renderings are the `sprintValue`, `sprintFloat` and `sprintTime` fields of `Library`.
- encoding/csv quoting, line endings and flushing are not modelled; the csv document is its record log. A csv.Writer over a bytes.Buffer reports no error, so the csv Init and WriteRow never fail.
- excelize internals are not modelled: cell names, the StreamWriter buffer, NewSheet / SetSheetName, and the zip and XML of File.Write. The workbook is a map from sheet name to row number to row. An empty sheet created by NewSheet and then opened afresh by NewStreamWriter is an empty map.
- sync.Pool: which pooled buffer Get returns is chosen nondeterministically from a set of buffers. Only the capacity check and the clear-before-Put invariant are kept.
- Io.Destination.Write: the output's Write is all or nothing. A short write is not modelled.
- Engine.Execute receives the input as an `Option<Input>` and the output as an `Option<Destination>`; `None` stands for a nil `io.Reader` / `io.Writer`.
- pkg/j2e/engine_test.go: its one test (lines 37-43) runs csv over a non-empty array and expects no error and non-empty output, which EngineProperties.CsvEndToEnd states. Its benchmark measures speed only.

## Findings

| source | as written | input that shows it | evidently intended | confidence | as-written member | corrected member |
|---|---|---|---|---|---|---|
| internal/export/xlsx.go:77-82 | WriteTo always calls Flush on `x.streamWriter`. Only Init sets that field, and the engine calls Init only when there is a first record. | Format `"xlsx"` and the input `[]`: the loop never runs, so WriteTo calls Flush on a nil `*StreamWriter`. | Writing the new workbook, with no flush when no stream writer was opened. | not executed | Xlsx.FinalizeAsWritten, with EngineProperties.EmptyXlsxRun showing the state it is applied to has none | Xlsx.FinalizeStep |
