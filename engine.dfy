/**
 * The engine of pkg/j2e/engine.go: configuration through chained setters,
 * then Execute, which checks the configuration, builds the exporter, reads
 * the records of a JSON array, derives the header from the first record,
 * assembles one row per record into pooled buffers and finalises the output.
 *
 * The decoder goroutine and the channel between it and the main loop are a
 * single producer and a single consumer over a FIFO, and a decode error is
 * queued before the channel is closed; Execute is therefore modelled as the
 * sequential loop over the decoded records followed by the check for that
 * error.
 */
module J2e {
  import opened Wrappers
  import opened Converter
  import opened Io
  import opened Export
  import Xlsx

  /** What encoding/json decodes one array element into. */
  type Record = map<string, JsonValue>

  /** The outcome of the decoder's first Token call. */
  datatype Token = ArrayStart | OtherToken | TokenError

  /** The input stream as the decoder delivers it: first token, the records, then possibly an error. */
  datatype Input = Input(first: Token, records: seq<Record>, decodeError: Option<string>)

  /** One call the engine makes on its exporter. */
  datatype Call = InitCall(headers: seq<string>) | WriteRowCall(row: seq<Slot>) | FinalizeCall

  /** What Execute returns, the calls it made, and the document the output received, if any. */
  datatype Outcome = Outcome(err: Option<Error>, trace: seq<Call>, written: Option<Document>)

  predicate Distinct(hs: seq<string>) {
    forall i, j :: 0 <= i < j < |hs| ==> hs[i] != hs[j]
  }

  /** `hs` lists the keys of `rec`, each once, in some order. */
  predicate IsEnumeration(hs: seq<string>, rec: Record) {
    Distinct(hs) && (forall i :: 0 <= i < |hs| ==> hs[i] in rec) && (forall k :: k in rec ==> k in hs)
  }

  /** `headerMap` maps each header to its column. */
  predicate IndexedBy(headerMap: map<string, nat>, hs: seq<string>) {
    (forall k :: k in headerMap ==> k in hs) &&
    (forall i :: 0 <= i < |hs| ==> hs[i] in headerMap && headerMap[hs[i]] == i)
  }

  /** A key of the header map names the column it maps to. */
  lemma {:induction false} ColumnOf(headerMap: map<string, nat>, hs: seq<string>, k: string)
    requires IndexedBy(headerMap, hs) && k in headerMap
    ensures headerMap[k] < |hs| && hs[headerMap[k]] == k
  {
    var col :| 0 <= col < |hs| && hs[col] == k;
  }

  /** The slot of column `h`: the converted value, or nil where the record lacks the key. */
  function Column(lib: Library, rec: Record, h: string): Slot {
    if h in rec then Val(ConvertDynamic(lib, rec[h])) else Nil
  }

  /** The row of `rec` under header `hs`. */
  function BuildRow(lib: Library, hs: seq<string>, rec: Record): (row: seq<Slot>)
    ensures |row| == |hs|
  {
    seq(|hs|, i requires 0 <= i < |hs| => Column(lib, rec, hs[i]))
  }

  function Rows(lib: Library, hs: seq<string>, records: seq<Record>): (rows: seq<seq<Slot>>)
    ensures |rows| == |records|
  {
    seq(|records|, i requires 0 <= i < |records| => BuildRow(lib, hs, records[i]))
  }

  /** The exporter's state, the calls made so far and the error that stopped the loop, if any. */
  datatype Progress = Progress(sink: SinkState, trace: seq<Call>, err: Option<Error>)

  /**
   * One turn of the main loop: Init with the header on the first record, then
   * WriteRow of the record's row. Exporter call number c sees faults(c).
   */
  function ConsumeOne(lib: Library, hs: seq<string>, p: Progress, rec: Record, first: bool,
                      faults: nat -> Xlsx.XlsxIo): Progress
    requires p.err.None? && (first || Ready(p.sink))
  {
    var init := if first then SinkInit(p.sink, hs, faults(|p.trace|)) else Step(p.sink, None);
    var trace := if first then p.trace + [InitCall(hs)] else p.trace;
    if init.err.Some? then
      Progress(init.next, trace, init.err)
    else
      var row := BuildRow(lib, hs, rec);
      var st := SinkWriteRow(lib, init.next, row, faults(|trace|));
      Progress(st.next, trace + [WriteRowCall(row)], st.err)
  }

  /** The main loop over `records`, stopping at the first exporter error. */
  function Consume(lib: Library, kind: Kind, hs: seq<string>, records: seq<Record>,
                   faults: nat -> Xlsx.XlsxIo): (p: Progress)
    ensures p.err.None? && |records| > 0 ==> Ready(p.sink)
    decreases |records|
  {
    if |records| == 0 then
      Progress(Initial(kind), [], None)
    else
      var prev := Consume(lib, kind, hs, records[..|records| - 1], faults);
      if prev.err.Some? then prev
      else ConsumeOne(lib, hs, prev, records[|records| - 1], |records| == 1, faults)
  }

  /** Whether Execute gets past its checks to the records. */
  predicate Reaches(input: Option<Input>, hasOutput: bool, format: string) {
    input.Some? && hasOutput && FormatKind(format).Some? && input.value.first == ArrayStart
  }

  /**
   * Execute as a function of its configuration, the header order chosen and
   * the faults of the exporter calls. `failure` is what the output's Write
   * reports.
   */
  function Run(input: Option<Input>, hasOutput: bool, failure: Option<string>, format: string,
               lib: Library, faults: nat -> Xlsx.XlsxIo, hs: seq<string>): Outcome
  {
    if input.None? || !hasOutput then Outcome(Some(StreamsNotSet), [], None)
    else if FormatKind(format).None? then Outcome(Some(UnsupportedFormat(format)), [], None)
    else if input.value.first != ArrayStart then Outcome(Some(NotAnArray), [], None)
    else Conclude(Consume(lib, FormatKind(format).value, hs, input.value.records, faults),
                  input.value.decodeError, faults, failure)
  }

  /**
   * After the loop: its error, else the decode error, else the outcome of
   * finalising the exporter.
   */
  function Conclude(p: Progress, decodeError: Option<string>, faults: nat -> Xlsx.XlsxIo,
                    failure: Option<string>): Outcome
  {
    if p.err.Some? then Outcome(p.err, p.trace, None)
    else if decodeError.Some? then Outcome(Some(DecodeError(decodeError.value)), p.trace, None)
    else
      match SinkFinalize(p.sink, faults(|p.trace|), failure)
      case Wrote(doc) => Outcome(None, p.trace + [FinalizeCall], Some(doc))
      case Failed(e) => Outcome(Some(e), p.trace + [FinalizeCall], None)
  }

  /** The documents the output receives in a run with outcome `out`. */
  function Emitted(out: Outcome): seq<Document> {
    if out.written.Some? then [out.written.value] else []
  }

  /** Once the loop has stopped on an error, later records change nothing. */
  lemma {:induction false} ConsumeHalts(lib: Library, kind: Kind, hs: seq<string>, records: seq<Record>,
                                        faults: nat -> Xlsx.XlsxIo, j: nat)
    requires j <= |records|
    requires Consume(lib, kind, hs, records[..j], faults).err.Some?
    ensures Consume(lib, kind, hs, records, faults) == Consume(lib, kind, hs, records[..j], faults)
    decreases |records|
  {
    if j == |records| {
      assert records[..j] == records;
    } else {
      var init := records[..|records| - 1];
      assert init[..j] == records[..j];
      ConsumeHalts(lib, kind, hs, init, faults, j);
    }
  }

  /** One more record is one more turn of the loop. */
  lemma {:induction false} ConsumeSnoc(lib: Library, kind: Kind, hs: seq<string>, records: seq<Record>,
                    faults: nat -> Xlsx.XlsxIo, i: nat)
    requires i < |records|
    requires Consume(lib, kind, hs, records[..i], faults).err.None?
    ensures i > 0 ==> Ready(Consume(lib, kind, hs, records[..i], faults).sink)
    ensures Consume(lib, kind, hs, records[..i + 1], faults) ==
      ConsumeOne(lib, hs, Consume(lib, kind, hs, records[..i], faults), records[i], i == 0, faults)
  {
    assert records[..i + 1][..i] == records[..i];
  }

  /**
   * A turn of the loop that matches ConsumeOne extends Consume by one record;
   * a turn that fails ends it.
   */
  lemma {:induction false} AdvanceConsume(lib: Library, kind: Kind, hs: seq<string>, records: seq<Record>,
                                          faults: nat -> Xlsx.XlsxIo, i: nat, before: Progress, after: Progress)
    requires i < |records| && before.err.None?
    requires i == 0 ==> before == Progress(Initial(kind), [], None)
    requires i > 0 ==> Consume(lib, kind, hs, records[..i], faults) == before
    requires i > 0 ==> Ready(before.sink)
    requires ConsumeOne(lib, hs, before, records[i], i == 0, faults) == after
    ensures Consume(lib, kind, hs, records[..i + 1], faults) == after
    ensures after.err.Some? ==> Consume(lib, kind, hs, records, faults) == after
  {
    assert Consume(lib, kind, hs, records[..i], faults) == before;
    ConsumeSnoc(lib, kind, hs, records, faults, i);
    if after.err.Some? {
      ConsumeHalts(lib, kind, hs, records, faults, i + 1);
    }
  }

  /** The header of the first record: its keys in map order, and each key's column. */
  method DeriveHeader(rec: Record) returns (hs: seq<string>, headerMap: map<string, nat>)
    ensures IsEnumeration(hs, rec)
    ensures IndexedBy(headerMap, hs)
  {
    hs := [];
    headerMap := map[];
    var remaining := rec.Keys;
    while remaining != {}
      invariant remaining <= rec.Keys
      invariant forall k :: k in rec ==> (k in hs <==> k !in remaining)
      invariant forall i :: 0 <= i < |hs| ==> hs[i] in rec
      invariant Distinct(hs)
      invariant IndexedBy(headerMap, hs)
      decreases |remaining|
    {
      var k :| k in remaining;
      hs := hs + [k];
      headerMap := headerMap[k := |hs| - 1];
      remaining := remaining - {k};
    }
  }

  /** Fills the first |hs| slots of a cleared buffer with the row of `rec`; the rest is left alone. */
  method FillRow(lib: Library, row: array<Slot>, hs: seq<string>, headerMap: map<string, nat>, rec: Record)
    requires |hs| <= row.Length
    requires IndexedBy(headerMap, hs)
    requires forall j :: 0 <= j < |hs| ==> row[j] == Nil
    modifies row
    ensures row[..|hs|] == BuildRow(lib, hs, rec)
    ensures forall j :: |hs| <= j < row.Length ==> row[j] == old(row[j])
  {
    ghost var target := BuildRow(lib, hs, rec);
    var pending := rec.Keys;
    while pending != {}
      invariant pending <= rec.Keys
      invariant forall j :: 0 <= j < |hs| ==> row[j] == if hs[j] in pending then Nil else target[j]
      invariant forall j :: |hs| <= j < row.Length ==> row[j] == old(row[j])
      decreases |pending|
    {
      var k :| k in pending;
      if k in headerMap {
        ColumnOf(headerMap, hs, k);
        row[headerMap[k]] := Column(lib, rec, k);
      }
      pending := pending - {k};
    }
    assert row[..|hs|] == target;
  }

  /** Sets the first n slots back to nil before the buffer returns to the pool. */
  method ClearRow(row: array<Slot>, n: nat)
    requires n <= row.Length
    modifies row
    ensures forall j :: 0 <= j < n ==> row[j] == Nil
    ensures forall j :: n <= j < row.Length ==> row[j] == old(row[j])
  {
    var i := 0;
    while i < n
      invariant 0 <= i <= n
      invariant forall j :: 0 <= j < i ==> row[j] == Nil
      invariant forall j :: i <= j < row.Length ==> row[j] == old(row[j])
    {
      row[i] := Nil;
      i := i + 1;
    }
  }

  /** Every slot of the buffer is nil. */
  predicate Cleared(b: array<Slot>)
    reads b
  {
    forall j :: 0 <= j < b.Length ==> b[j] == Nil
  }

  /**
   * rowPool.Get and the capacity check that follows it: a pooled buffer, or a
   * new one with room for 50 values, replaced by one of length n when it is
   * too small. The pool holds cleared buffers, so the one returned is cleared.
   */
  method GetRow(pool: set<array<Slot>>, n: nat) returns (row: array<Slot>, rest: set<array<Slot>>)
    requires forall b :: b in pool ==> Cleared(b)
    ensures row in pool || fresh(row)
    ensures rest <= pool && row !in rest
    ensures n <= row.Length && Cleared(row)
  {
    if pool != {} {
      row :| row in pool;
    } else {
      row := new Slot[50](_ => Nil);
    }
    rest := pool - {row};
    if row.Length < n {
      row := new Slot[n](_ => Nil);
    }
  }

  /**
   * One record's row: take a buffer from the pool, fill it, hand its first
   * |hs| slots to the exporter's WriteRow and, if that succeeds, clear it and
   * put it back.
   */
  method EmitRow(lib: Library, exporter: Exporter, hs: seq<string>, headerMap: map<string, nat>, rec: Record,
                 pool: set<array<Slot>>, io: Xlsx.XlsxIo)
    returns (err: Option<Error>, pool': set<array<Slot>>)
    requires IndexedBy(headerMap, hs)
    requires Ready(exporter.State())
    requires forall b :: b in pool ==> Cleared(b)
    modifies exporter.Repr(), pool
    ensures exporter.State() == SinkWriteRow(lib, old(exporter.State()), BuildRow(lib, hs, rec), io).next
    ensures err == SinkWriteRow(lib, old(exporter.State()), BuildRow(lib, hs, rec), io).err
    ensures forall b :: b in pool' ==> (b in pool || fresh(b)) && Cleared(b)
  {
    var row, rest := GetRow(pool, |hs|);
    FillRow(lib, row, hs, headerMap, rec);
    err := exporter.WriteRow(lib, row, |hs|, io);
    if err.Some? {
      return err, rest;
    }
    ClearRow(row, |hs|);
    pool' := rest + {row};
  }

  /**
   * One turn of the main loop: on the first record, derive the header and
   * Init; then emit the record's row. `calls` numbers the exporter calls.
   */
  method HandleRecord(lib: Library, exporter: Exporter, first: bool, hs: seq<string>,
                      headerMap: map<string, nat>, rec: Record, pool: set<array<Slot>>,
                      calls: nat, ghost trace: seq<Call>, faults: nat -> Xlsx.XlsxIo)
    returns (err: Option<Error>, hs': seq<string>, headerMap': map<string, nat>,
             pool': set<array<Slot>>, calls': nat, ghost trace': seq<Call>)
    requires calls == |trace|
    requires !first ==> IndexedBy(headerMap, hs) && Ready(exporter.State())
    requires forall b :: b in pool ==> Cleared(b)
    modifies exporter.Repr(), pool
    ensures first ==> IsEnumeration(hs', rec)
    ensures !first ==> hs' == hs
    ensures IndexedBy(headerMap', hs')
    ensures ConsumeOne(lib, hs', Progress(old(exporter.State()), trace, None), rec, first, faults) ==
      Progress(exporter.State(), trace', err)
    ensures calls' == |trace'|
    ensures forall b :: b in pool' ==> (b in pool || fresh(b)) && Cleared(b)
  {
    hs', headerMap', pool', calls', trace' := hs, headerMap, pool, calls, trace;
    if first {
      hs', headerMap' := DeriveHeader(rec);
      err := exporter.Init(hs', faults(calls'));
      trace', calls' := trace' + [InitCall(hs')], calls' + 1;
      if err.Some? {
        return;
      }
    }
    err, pool' := EmitRow(lib, exporter, hs', headerMap', rec, pool', faults(calls'));
    trace', calls' := trace' + [WriteRowCall(BuildRow(lib, hs', rec))], calls' + 1;
  }

  /** One turn of the main loop: HandleRecord on `records[i]`, as Consume describes it; `first` marks records[0]. */
  method Turn(lib: Library, exporter: Exporter, kind: Kind, records: seq<Record>, faults: nat -> Xlsx.XlsxIo,
              i: nat, first: bool, hs: seq<string>, headerMap: map<string, nat>, pool: set<array<Slot>>,
              calls: nat, ghost trace: seq<Call>)
    returns (err: Option<Error>, hs': seq<string>, headerMap': map<string, nat>,
             pool': set<array<Slot>>, calls': nat, ghost trace': seq<Call>)
    requires i < |records| && calls == |trace| && (first <==> i == 0)
    requires i == 0 ==> exporter.State() == Initial(kind) && trace == []
    requires i > 0 ==> IndexedBy(headerMap, hs)
    requires i > 0 ==> Consume(lib, kind, hs, records[..i], faults) == Progress(exporter.State(), trace, None)
    requires forall b :: b in pool ==> Cleared(b)
    modifies exporter.Repr(), pool
    ensures i > 0 ==> hs' == hs
    ensures i == 0 ==> IsEnumeration(hs', records[0])
    ensures IndexedBy(headerMap', hs') && calls' == |trace'|
    ensures Consume(lib, kind, hs', records[..i + 1], faults) == Progress(exporter.State(), trace', err)
    ensures err.Some? ==> Consume(lib, kind, hs', records, faults) == Progress(exporter.State(), trace', err)
    ensures forall b :: b in pool' ==> (b in pool || fresh(b)) && Cleared(b)
  {
    ghost var before := Progress(exporter.State(), trace, None);
    assert i > 0 ==> |records[..i]| > 0;
    err, hs', headerMap', pool', calls', trace' :=
      HandleRecord(lib, exporter, first, hs, headerMap, records[i], pool, calls, trace, faults);
    AdvanceConsume(lib, kind, hs', records, faults, i, before, Progress(exporter.State(), trace', err));
  }

  /**
   * The main loop of Execute over the decoded records, with the flag that
   * marks the first one; the first exporter error ends it.
   */
  method ProcessRecords(lib: Library, exporter: Exporter, kind: Kind, records: seq<Record>,
                        faults: nat -> Xlsx.XlsxIo)
    returns (err: Option<Error>, calls: nat, ghost headers: seq<string>, ghost trace: seq<Call>)
    requires exporter.State() == Initial(kind)
    modifies exporter.Repr()
    ensures Consume(lib, kind, headers, records, faults) == Progress(exporter.State(), trace, err)
    ensures calls == |trace|
    ensures |records| > 0 ==> IsEnumeration(headers, records[0])
  {
    var hs: seq<string> := [];
    var headerMap: map<string, nat> := map[];
    var isFirstRow := true;
    // the buffers sync.Pool holds
    var pool: set<array<Slot>> := {};
    trace, calls, err := [], 0, None;
    var i := 0;
    while i < |records|
      invariant 0 <= i <= |records|
      invariant isFirstRow <==> i == 0
      invariant calls == |trace| && err == None
      invariant i > 0 ==> IsEnumeration(hs, records[0]) && IndexedBy(headerMap, hs)
      invariant Consume(lib, kind, hs, records[..i], faults) == Progress(exporter.State(), trace, None)
      invariant i == 0 ==> exporter.State() == Initial(kind) && trace == []
      invariant forall b :: b in pool ==> fresh(b) && Cleared(b)
    {
      err, hs, headerMap, pool, calls, trace :=
        Turn(lib, exporter, kind, records, faults, i, isFirstRow, hs, headerMap, pool, calls, trace);
      if err.Some? {
        headers := hs;
        return;
      }
      isFirstRow := false;
      i := i + 1;
    }
    assert records[..i] == records;
    headers := hs;
  }

  /**
   * After the main loop: its error, else the decoder's error, else WriteTo on
   * the output.
   */
  method Finish(exporter: Exporter, loopErr: Option<Error>, calls: nat, ghost trace: seq<Call>,
                decodeError: Option<string>, dest: Destination, faults: nat -> Xlsx.XlsxIo)
    returns (err: Option<Error>, ghost trace': seq<Call>)
    requires calls == |trace|
    modifies dest
    ensures var out := Conclude(Progress(exporter.State(), trace, loopErr), decodeError, faults, dest.failure);
      err == out.err && trace' == out.trace && dest.written == old(dest.written) + Emitted(out)
  {
    trace' := trace;
    if loopErr.Some? {
      return loopErr, trace';
    }
    if decodeError.Some? {
      return Some(DecodeError(decodeError.value)), trace';
    }
    err := exporter.Finalize(dest, faults(calls));
    trace' := trace' + [FinalizeCall];
  }

  /** The part of Execute after its checks: the main loop, then Finish on the output. */
  method RunExporter(lib: Library, exporter: Exporter, kind: Kind, input: Input, dest: Destination,
                     faults: nat -> Xlsx.XlsxIo)
    returns (err: Option<Error>, ghost headers: seq<string>, ghost trace: seq<Call>)
    requires exporter.State() == Initial(kind)
    requires dest !in exporter.Repr()
    modifies exporter.Repr(), dest
    ensures var out := Conclude(Consume(lib, kind, headers, input.records, faults), input.decodeError, faults, dest.failure);
      err == out.err && trace == out.trace && dest.written == old(dest.written) + Emitted(out)
    ensures |input.records| > 0 ==> IsEnumeration(headers, input.records[0])
  {
    var calls;
    err, calls, headers, trace := ProcessRecords(lib, exporter, kind, input.records, faults);
    err, trace := Finish(exporter, err, calls, trace, input.decodeError, dest, faults);
  }

  function FailureOf(w: Option<Destination>): Option<string> {
    if w.Some? then w.value.failure else None
  }

  class Engine {
    var inReader: Option<Input>
    var outWriter: Option<Destination>
    var format: string

    /** NewEngine: no streams, format "xlsx". */
    constructor ()
      ensures inReader.None? && outWriter.None? && format == FormatXLSX
    {
      inReader := None;
      outWriter := None;
      format := FormatXLSX;
    }

    method SetInputReader(r: Option<Input>) returns (e: Engine)
      modifies this
      ensures e == this && inReader == r
      ensures outWriter == old(outWriter) && format == old(format)
    {
      inReader := r;
      e := this;
    }

    method SetOutputWriter(w: Option<Destination>) returns (e: Engine)
      modifies this
      ensures e == this && outWriter == w
      ensures inReader == old(inReader) && format == old(format)
    {
      outWriter := w;
      e := this;
    }

    method SetFormat(ext: string) returns (e: Engine)
      modifies this
      ensures e == this && format == ext
      ensures inReader == old(inReader) && outWriter == old(outWriter)
    {
      format := ext;
      e := this;
    }

    function OutputRepr(): set<object>
      reads this
    {
      if outWriter.Some? then {outWriter.value} else {}
    }

    /**
     * Execute. `lib` stands for the library code the converter and the
     * exporters call, `faults(c)` for the errors excelize reports in exporter
     * call number c; `headers` is the header order the map iteration chose
     * and `trace` the exporter calls made.
     */
    method Execute(lib: Library, faults: nat -> Xlsx.XlsxIo)
      returns (err: Option<Error>, ghost headers: seq<string>, ghost trace: seq<Call>)
      modifies OutputRepr()
      ensures var out := Run(inReader, outWriter.Some?, FailureOf(outWriter), format, lib, faults, headers);
        err == out.err && trace == out.trace &&
        (outWriter.Some? ==> outWriter.value.written == old(outWriter.value.written) + Emitted(out))
      ensures Reaches(inReader, outWriter.Some?, format) && |inReader.value.records| > 0 ==>
        IsEnumeration(headers, inReader.value.records[0])
    {
      headers := [];
      trace := [];
      if inReader.None? || outWriter.None? {
        return Some(StreamsNotSet), headers, trace;
      }
      var created, e := NewExporter(format);
      if e.Some? {
        return e, headers, trace;
      }
      var exporter := created.value;
      var input := inReader.value;
      var dest := outWriter.value;
      if input.first != ArrayStart {
        return Some(NotAnArray), headers, trace;
      }
      err, headers, trace := RunExporter(lib, exporter, FormatKind(format).value, input, dest, faults);
    }
  }
}
