/**
 * Where the spreadsheet exporter of internal/export/xlsx.go puts its rows,
 * stated in closed form: the header at row 1 of every sheet, at most
 * MaxRowsPerSheet rows in a sheet, sheets named Sheet1, Sheet2, ... in order.
 */
module Sheets {
  import opened Converter
  import opened Io

  const MaxRowsPerSheet: nat := 1000000
  /** Row 1 of every sheet is the header, so this many data rows fit in one. */
  const DataRowsPerSheet: nat := 999999  // MaxRowsPerSheet - 1

  type Positive = n: nat | n >= 1 witness 1

  function DigitChar(d: nat): char
    requires d < 10
  {
    ('0' as int + d) as char
  }

  /** Decimal rendering of a natural number, as fmt's %d writes it. */
  function DecimalString(n: nat): (s: string)
    ensures |s| >= 1
    ensures n >= 10 ==> |s| >= 2
  {
    if n < 10 then [DigitChar(n)] else DecimalString(n / 10) + [DigitChar(n % 10)]
  }

  lemma {:induction false} DecimalInjective(a: nat, b: nat)
    ensures DecimalString(a) == DecimalString(b) ==> a == b
    decreases a
  {
    if DecimalString(a) == DecimalString(b) {
      var s := DecimalString(a);
      if a < 10 && b < 10 {
        assert s[0] == DigitChar(a) && s[0] == DigitChar(b);
      } else if a >= 10 && b >= 10 {
        assert DigitChar(a % 10) == s[|s| - 1] == DigitChar(b % 10);
        assert DecimalString(a / 10) == s[..|s| - 1] == DecimalString(b / 10);
        DecimalInjective(a / 10, b / 10);
      }
    }
  }

  /** The name fmt.Sprintf("Sheet%d", k) gives the k-th sheet. */
  function SheetName(k: nat): string {
    "Sheet" + DecimalString(k)
  }

  lemma {:induction false} SheetNameInjective(a: nat, b: nat)
    ensures SheetName(a) == SheetName(b) ==> a == b
  {
    if SheetName(a) == SheetName(b) {
      assert DecimalString(a) == SheetName(a)[5..] == SheetName(b)[5..] == DecimalString(b);
      DecimalInjective(a, b);
    }
  }

  /** The sheet with row j set to `row`. */
  function WithRow(sheet: Sheet, j: nat, row: seq<Slot>): Sheet {
    sheet[j := row]
  }

  /** The header as a row of text cells. */
  function HeaderRow(headers: seq<string>): (r: seq<Slot>)
    ensures |r| == |headers|
  {
    seq(|headers|, i requires 0 <= i < |headers| => Val(Text(headers[i])))
  }

  /** How many sheets n data rows occupy (an empty workbook still has Sheet1). */
  function SheetCount(n: nat): Positive
    decreases n
  {
    if n <= DataRowsPerSheet then 1 else SheetCount(n - DataRowsPerSheet) + 1
  }

  /** SheetCount(n) sheets hold n rows, and one sheet fewer does not. */
  lemma {:induction false} CountBounds(n: nat)
    ensures (SheetCount(n) - 1) * DataRowsPerSheet <= n <= SheetCount(n) * DataRowsPerSheet
    ensures n >= 1 ==> (SheetCount(n) - 1) * DataRowsPerSheet < n
    decreases n
  {
    if n > DataRowsPerSheet {
      CountBounds(n - DataRowsPerSheet);
    }
  }

  /** The bounds of CountBounds determine the count. */
  lemma {:induction false} CountUnique(n: nat, s: Positive)
    requires (s - 1) * DataRowsPerSheet < n <= s * DataRowsPerSheet
    ensures SheetCount(n) == s
  {
    CountBounds(n);
  }

  /** First row of the last sheet still free after n data rows; beyond a full sheet it is MaxRowsPerSheet + 1. */
  function NextRow(n: nat): (r: nat)
    ensures 2 <= r <= MaxRowsPerSheet + 1
    ensures (SheetCount(n) - 1) * DataRowsPerSheet + r - 2 == n
  {
    CountBounds(n);
    n - (SheetCount(n) - 1) * DataRowsPerSheet + 2
  }

  /** The sheet of the i-th data row (from 0): the last sheet once i + 1 rows are written. */
  function SheetOf(i: nat): Positive {
    SheetCount(i + 1)
  }

  /** The row of the i-th data row within its sheet. */
  function RowOf(i: nat): int {
    i - (SheetOf(i) - 1) * DataRowsPerSheet + 2
  }

  /** The i-th data row (from 0) goes to sheet 1 + i div DataRowsPerSheet, at row 2 + i mod DataRowsPerSheet. */
  lemma {:induction false} PlacementClosedForm(i: nat)
    ensures SheetOf(i) == 1 + i / DataRowsPerSheet
    ensures RowOf(i) == 2 + i % DataRowsPerSheet
  {
    var s := SheetOf(i);
    CountBounds(i + 1);
    var q, r := i / DataRowsPerSheet, i % DataRowsPerSheet;
    assert i == q * DataRowsPerSheet + r && 0 <= r < DataRowsPerSheet;
    assert (s - 1) * DataRowsPerSheet <= i < s * DataRowsPerSheet;
  }

  /** Index, among all data rows, of row j of sheet k. */
  function RowIndex(k: Positive, j: nat): int {
    (k - 1) * DataRowsPerSheet + j - 2
  }

  /** Whether row j of sheet k is filled when there are n data rows. */
  predicate Filled(n: nat, k: Positive, j: nat) {
    1 <= j <= MaxRowsPerSheet && (j == 1 || RowIndex(k, j) < n)
  }

  /** Sheet k of the workbook holding `rows` under header `headers`. */
  function SheetRows(headers: seq<string>, rows: seq<seq<Slot>>, k: Positive): Sheet {
    map j: nat | 1 <= j <= MaxRowsPerSheet && Filled(|rows|, k, j) ::
      if j == 1 then HeaderRow(headers) else rows[RowIndex(k, j)]
  }

  /** Sheets 1..m of the workbook holding `rows`, keyed by sheet name. */
  function Book(headers: seq<string>, rows: seq<seq<Slot>>, m: nat): map<string, Sheet>
    decreases m
  {
    if m == 0 then map[] else Book(headers, rows, m - 1)[SheetName(m) := SheetRows(headers, rows, m)]
  }

  /** The workbook holding `rows` under header `headers`. */
  function Layout(headers: seq<string>, rows: seq<seq<Slot>>): map<string, Sheet> {
    Book(headers, rows, SheetCount(|rows|))
  }

  lemma {:induction false} BookAt(headers: seq<string>, rows: seq<seq<Slot>>, m: nat, k: nat)
    requires 1 <= k <= m
    ensures SheetName(k) in Book(headers, rows, m)
    ensures Book(headers, rows, m)[SheetName(k)] == SheetRows(headers, rows, k)
    decreases m
  {
    if k < m {
      BookAt(headers, rows, m - 1, k);
      SheetNameInjective(k, m);
    }
  }

  lemma {:induction false} BookNames(headers: seq<string>, rows: seq<seq<Slot>>, m: nat, name: string)
    requires name in Book(headers, rows, m)
    ensures exists k: nat :: 1 <= k <= m && name == SheetName(k)
    decreases m
  {
    if name != SheetName(m) {
      BookNames(headers, rows, m - 1, name);
    }
  }

  /** No sheet past the m-th is in the first m sheets. */
  lemma {:induction false} BookFresh(headers: seq<string>, rows: seq<seq<Slot>>, m: nat, k: nat)
    requires k > m
    ensures SheetName(k) !in Book(headers, rows, m)
    decreases m
  {
    if m > 0 {
      BookFresh(headers, rows, m - 1, k);
      SheetNameInjective(k, m);
    }
  }

  /** Replacing the m-th sheet of a workbook whose first m - 1 sheets agree with another's. */
  lemma {:induction false} BookStep(headers: seq<string>, rows1: seq<seq<Slot>>, rows2: seq<seq<Slot>>, m: Positive, sheet: Sheet)
    requires Book(headers, rows1, m - 1) == Book(headers, rows2, m - 1)
    requires SheetRows(headers, rows1, m) == sheet
    ensures Book(headers, rows1, m) == Book(headers, rows2, m)[SheetName(m) := sheet]
  {
    var below := Book(headers, rows2, m - 1);
    assert below[SheetName(m) := SheetRows(headers, rows2, m)][SheetName(m) := sheet] == below[SheetName(m) := sheet];
  }

  /** Workbooks whose sheets 1..m agree are equal. */
  lemma {:induction false} BookCongruent(headers: seq<string>, rows1: seq<seq<Slot>>, rows2: seq<seq<Slot>>, m: nat)
    requires forall k: Positive :: k <= m ==> SheetRows(headers, rows1, k) == SheetRows(headers, rows2, k)
    ensures Book(headers, rows1, m) == Book(headers, rows2, m)
    decreases m
  {
    if m > 0 {
      BookCongruent(headers, rows1, rows2, m - 1);
    }
  }

  /** Sheet k of the layout, for each k from 1 to SheetCount, is there and holds the header and its rows. */
  lemma {:induction false} LayoutAt(headers: seq<string>, rows: seq<seq<Slot>>, k: nat)
    requires 1 <= k <= SheetCount(|rows|)
    ensures SheetName(k) in Layout(headers, rows)
    ensures Layout(headers, rows)[SheetName(k)] == SheetRows(headers, rows, k)
  {
    BookAt(headers, rows, SheetCount(|rows|), k);
  }

  /** The sheets of the layout are Sheet1 .. Sheet{SheetCount}: each of them is there, and `name` is one of them. */
  lemma {:induction false} LayoutNames(headers: seq<string>, rows: seq<seq<Slot>>, name: string)
    requires name in Layout(headers, rows)
    ensures exists k: nat :: 1 <= k <= SheetCount(|rows|) && name == SheetName(k)
    ensures forall k :: 1 <= k <= SheetCount(|rows|) ==> SheetName(k) in Layout(headers, rows)
  {
    BookNames(headers, rows, SheetCount(|rows|), name);
    forall k | 1 <= k <= SheetCount(|rows|) ensures SheetName(k) in Layout(headers, rows) {
      LayoutAt(headers, rows, k);
    }
  }

  /** The i-th data row sits at row RowOf(i) of sheet SheetOf(i), and nowhere past the last row. */
  lemma {:induction false} RowPlacement(headers: seq<string>, rows: seq<seq<Slot>>, i: nat)
    requires i < |rows|
    ensures SheetOf(i) <= SheetCount(|rows|)
    ensures 2 <= RowOf(i) <= MaxRowsPerSheet
    ensures SheetName(SheetOf(i)) in Layout(headers, rows)
    ensures RowOf(i) in Layout(headers, rows)[SheetName(SheetOf(i))]
    ensures Layout(headers, rows)[SheetName(SheetOf(i))][RowOf(i)] == rows[i]
  {
    var k := SheetOf(i);
    CountBounds(i + 1);
    CountBounds(|rows|);
    assert k <= SheetCount(|rows|);
    LayoutAt(headers, rows, k);
  }

  /** Row i (from 0) of the layout sits in sheet 1 + i div DataRowsPerSheet, at row 2 + i mod DataRowsPerSheet. */
  lemma {:induction false} LayoutPlacement(headers: seq<string>, rows: seq<seq<Slot>>)
    ensures forall i :: 0 <= i < |rows| ==>
      SheetName(1 + i / DataRowsPerSheet) in Layout(headers, rows) &&
      2 + i % DataRowsPerSheet in Layout(headers, rows)[SheetName(1 + i / DataRowsPerSheet)] &&
      Layout(headers, rows)[SheetName(1 + i / DataRowsPerSheet)][2 + i % DataRowsPerSheet] == rows[i]
  {
    forall i | 0 <= i < |rows|
      ensures SheetName(1 + i / DataRowsPerSheet) in Layout(headers, rows) &&
              2 + i % DataRowsPerSheet in Layout(headers, rows)[SheetName(1 + i / DataRowsPerSheet)] &&
              Layout(headers, rows)[SheetName(1 + i / DataRowsPerSheet)][2 + i % DataRowsPerSheet] == rows[i]
    {
      RowPlacement(headers, rows, i);
      PlacementClosedForm(i);
    }
  }

  /** Every sheet opens with the header and has no row beyond MaxRowsPerSheet. */
  lemma {:induction false} LayoutShape(headers: seq<string>, rows: seq<seq<Slot>>, name: string)
    requires name in Layout(headers, rows)
    ensures 1 in Layout(headers, rows)[name]
    ensures Layout(headers, rows)[name][1] == HeaderRow(headers)
    ensures forall j :: j in Layout(headers, rows)[name] ==> 1 <= j <= MaxRowsPerSheet
  {
    LayoutNames(headers, rows, name);
    var k: nat :| 1 <= k <= SheetCount(|rows|) && name == SheetName(k);
    LayoutAt(headers, rows, k);
  }

  /** Appending a row that belongs to sheet k sets its row in sheet k. */
  lemma {:induction false} SheetRowsHit(headers: seq<string>, rows: seq<seq<Slot>>, r: seq<Slot>, k: Positive)
    requires (k - 1) * DataRowsPerSheet <= |rows| < (k - 1) * DataRowsPerSheet + DataRowsPerSheet
    ensures SheetRows(headers, rows + [r], k) ==
      WithRow(SheetRows(headers, rows, k), |rows| - (k - 1) * DataRowsPerSheet + 2, r)
  {
    var j0 := |rows| - (k - 1) * DataRowsPerSheet + 2;
    var a := SheetRows(headers, rows + [r], k);
    var b := WithRow(SheetRows(headers, rows, k), j0, r);
    forall j | j in a ensures j in b && a[j] == b[j] {
      if j != j0 && j != 1 {
        assert RowIndex(k, j) < |rows|;
      }
    }
    forall j | j in b ensures j in a {
    }
    assert a == b;
  }

  /** Appending a row that belongs to another sheet leaves sheet k as it was. */
  lemma {:induction false} SheetRowsMiss(headers: seq<string>, rows: seq<seq<Slot>>, r: seq<Slot>, k: Positive)
    requires |rows| < (k - 1) * DataRowsPerSheet || (k - 1) * DataRowsPerSheet + DataRowsPerSheet <= |rows|
    ensures SheetRows(headers, rows + [r], k) == SheetRows(headers, rows, k)
  {
    var a := SheetRows(headers, rows + [r], k);
    var b := SheetRows(headers, rows, k);
    forall j | j in a ensures j in b && a[j] == b[j] {
      if j != 1 {
        assert RowIndex(k, j) < |rows|;
      }
    }
    forall j | j in b ensures j in a {
    }
    assert a == b;
  }

  /** Where row n goes when n rows are already there and the last sheet has room. */
  lemma {:induction false} SameSheetArith(n: nat)
    requires NextRow(n) <= MaxRowsPerSheet
    ensures SheetCount(n + 1) == SheetCount(n)
    ensures NextRow(n + 1) == NextRow(n) + 1
  {
    CountBounds(n);
    CountUnique(n + 1, SheetCount(n));
  }

  /** Where row n goes when n rows are already there and the last sheet is full. */
  lemma {:induction false} NewSheetArith(n: nat)
    requires NextRow(n) > MaxRowsPerSheet
    ensures n == SheetCount(n) * DataRowsPerSheet
    ensures SheetCount(n + 1) == SheetCount(n) + 1
    ensures NextRow(n + 1) == 3
  {
    CountBounds(n);
    CountUnique(n + 1, SheetCount(n) + 1);
  }

  lemma {:induction false} SameSheetAt(headers: seq<string>, rows: seq<seq<Slot>>, r: seq<Slot>, k: Positive)
    requires NextRow(|rows|) <= MaxRowsPerSheet
    requires k <= SheetCount(|rows|)
    ensures k < SheetCount(|rows|) ==> SheetRows(headers, rows + [r], k) == SheetRows(headers, rows, k)
    ensures k == SheetCount(|rows|) ==>
      SheetRows(headers, rows + [r], k) == WithRow(SheetRows(headers, rows, k), NextRow(|rows|), r)
  {
    var n: nat, s: nat := |rows|, SheetCount(|rows|);
    assert (s - 1) * DataRowsPerSheet + NextRow(n) - 2 == n;
    if k < s {
      assert (k - 1) * DataRowsPerSheet + DataRowsPerSheet <= (s - 1) * DataRowsPerSheet;
      SheetRowsMiss(headers, rows, r, k);
    } else {
      SheetRowsHit(headers, rows, r, k);
    }
  }

  lemma {:induction false} NewSheetAt(headers: seq<string>, rows: seq<seq<Slot>>, r: seq<Slot>, k: Positive)
    requires NextRow(|rows|) > MaxRowsPerSheet
    requires k <= SheetCount(|rows|) + 1
    ensures k <= SheetCount(|rows|) ==> SheetRows(headers, rows + [r], k) == SheetRows(headers, rows, k)
    ensures k == SheetCount(|rows|) + 1 ==>
      SheetRows(headers, rows + [r], k) == map[1 := HeaderRow(headers), 2 := r]
  {
    var n: nat, s: nat := |rows|, SheetCount(|rows|);
    NewSheetArith(n);
    if k <= s {
      assert (k - 1) * DataRowsPerSheet + DataRowsPerSheet <= n;
      SheetRowsMiss(headers, rows, r, k);
    } else {
      assert (k - 1) * DataRowsPerSheet == n;
      SheetRowsHit(headers, rows, r, k);
      var m := SheetRows(headers, rows, k);
      forall j | j in m ensures j == 1 {
        assert Filled(n, k, j);
      }
      assert m == map[1 := HeaderRow(headers)];
    }
  }

  /** Appending a row to a sheet with room leaves the sheets before it as they were. */
  lemma {:induction false} SameSheetsBelow(headers: seq<string>, rows: seq<seq<Slot>>, r: seq<Slot>, m: nat)
    requires NextRow(|rows|) <= MaxRowsPerSheet
    requires m < SheetCount(|rows|)
    ensures Book(headers, rows + [r], m) == Book(headers, rows, m)
  {
    forall k: Positive | k <= m ensures SheetRows(headers, rows + [r], k) == SheetRows(headers, rows, k) {
      SameSheetAt(headers, rows, r, k);
    }
    BookCongruent(headers, rows + [r], rows, m);
  }

  /** Appending a row past a full sheet leaves all existing sheets as they were. */
  lemma {:induction false} NewSheetsBelow(headers: seq<string>, rows: seq<seq<Slot>>, r: seq<Slot>)
    requires NextRow(|rows|) > MaxRowsPerSheet
    ensures Book(headers, rows + [r], SheetCount(|rows|)) == Layout(headers, rows)
  {
    var s := SheetCount(|rows|);
    forall k: Positive | k <= s ensures SheetRows(headers, rows + [r], k) == SheetRows(headers, rows, k) {
      NewSheetAt(headers, rows, r, k);
    }
    BookCongruent(headers, rows + [r], rows, s);
  }

  /** Appending a row to a last sheet with room changes only that sheet's next free row. */
  lemma {:induction false} SameSheetBook(headers: seq<string>, rows: seq<seq<Slot>>, r: seq<Slot>)
    requires NextRow(|rows|) <= MaxRowsPerSheet
    ensures var s := SheetCount(|rows|);
      Book(headers, rows + [r], s) == Book(headers, rows, s)[SheetName(s) := WithRow(SheetRows(headers, rows, s), NextRow(|rows|), r)]
  {
    var s: Positive := SheetCount(|rows|);
    SameSheetsBelow(headers, rows, r, s - 1);
    SameSheetAt(headers, rows, r, s);
    BookStep(headers, rows + [r], rows, s, WithRow(SheetRows(headers, rows, s), NextRow(|rows|), r));
  }

  /** A row that still fits in the last sheet goes to its next free row. */
  lemma {:induction false} AppendSameSheet(headers: seq<string>, rows: seq<seq<Slot>>, r: seq<Slot>)
    requires NextRow(|rows|) <= MaxRowsPerSheet
    ensures SheetCount(|rows| + 1) == SheetCount(|rows|)
    ensures NextRow(|rows| + 1) == NextRow(|rows|) + 1
    ensures var last := SheetName(SheetCount(|rows|));
      Layout(headers, rows + [r]) == Layout(headers, rows)[last := WithRow(Layout(headers, rows)[last], NextRow(|rows|), r)]
  {
    var n: nat, s: Positive := |rows|, SheetCount(|rows|);
    SameSheetArith(n);
    SameSheetBook(headers, rows, r);
    LayoutAt(headers, rows, s);
    assert |rows + [r]| == n + 1;
    assert Layout(headers, rows + [r]) == Book(headers, rows + [r], s);
  }

  /** Appending a row past a full last sheet adds the sheet after it: header at row 1, the row at row 2. */
  lemma {:induction false} NewSheetBook(headers: seq<string>, rows: seq<seq<Slot>>, r: seq<Slot>)
    requires NextRow(|rows|) > MaxRowsPerSheet
    ensures var s := SheetCount(|rows|);
      Book(headers, rows + [r], s + 1) == Layout(headers, rows)[SheetName(s + 1) := map[1 := HeaderRow(headers), 2 := r]]
  {
    NewSheetsBelow(headers, rows, r);
    NewSheetAt(headers, rows, r, SheetCount(|rows|) + 1);
  }

  /** A row past a full sheet opens the next sheet: its header at row 1, the row at row 2. */
  lemma {:induction false} AppendNewSheet(headers: seq<string>, rows: seq<seq<Slot>>, r: seq<Slot>)
    requires NextRow(|rows|) > MaxRowsPerSheet
    ensures SheetCount(|rows| + 1) == SheetCount(|rows|) + 1
    ensures NextRow(|rows| + 1) == 3
    ensures SheetName(SheetCount(|rows|) + 1) !in Layout(headers, rows)
    ensures Layout(headers, rows + [r]) ==
      Layout(headers, rows)[SheetName(SheetCount(|rows|) + 1) := map[1 := HeaderRow(headers), 2 := r]]
  {
    var n: nat, s: Positive := |rows|, SheetCount(|rows|);
    NewSheetArith(n);
    BookFresh(headers, rows, s, s + 1);
    NewSheetBook(headers, rows, r);
    assert |rows + [r]| == n + 1;
    assert Layout(headers, rows + [r]) == Book(headers, rows + [r], s + 1);
  }

  function Min(a: int, b: int): int {
    if a <= b then a else b
  }

  /** The data rows of one sheet, read from row j down to its last row. */
  function SheetData(sheet: Sheet, j: nat): seq<seq<Slot>>
    decreases MaxRowsPerSheet + 1 - j
  {
    if j <= MaxRowsPerSheet && j in sheet then [sheet[j]] + SheetData(sheet, j + 1) else []
  }

  /** The data rows of sheets k..count of a workbook, sheet after sheet. */
  function DataRows(book: map<string, Sheet>, k: nat, count: nat): seq<seq<Slot>>
    decreases count + 1 - k
  {
    if 1 <= k <= count && SheetName(k) in book
    then SheetData(book[SheetName(k)], 2) + DataRows(book, k + 1, count)
    else []
  }

  /** Sheet k starts no later than the n-th data row when there are SheetCount(n) sheets. */
  lemma {:induction false} SheetStart(n: nat, k: Positive)
    requires k <= SheetCount(n)
    ensures (k - 1) * DataRowsPerSheet <= n
  {
    CountBounds(n);
  }

  lemma {:induction false} SliceCons<T>(s: seq<T>, a: nat, b: nat)
    requires a < b <= |s|
    ensures s[a..b] == [s[a]] + s[a + 1..b]
  {
  }

  lemma {:induction false} SliceSplit<T>(s: seq<T>, a: nat, b: nat)
    requires a <= b <= |s|
    ensures s[a..] == s[a..b] + s[b..]
  {
  }

  /** Past row j, sheet k of the layout holds the rows from index (k - 1) * DataRowsPerSheet + j - 2 to the sheet's end. */
  lemma {:induction false} SheetDataOfLayout(headers: seq<string>, rows: seq<seq<Slot>>, k: Positive, j: nat)
    requires (k - 1) * DataRowsPerSheet <= |rows|
    requires 2 <= j <= MaxRowsPerSheet + 1
    ensures var hi := Min(k * DataRowsPerSheet, |rows|);
      (k - 1) * DataRowsPerSheet <= hi &&
      SheetData(SheetRows(headers, rows, k), j) == rows[Min((k - 1) * DataRowsPerSheet + j - 2, hi)..hi]
    decreases MaxRowsPerSheet + 1 - j
  {
    var base := (k - 1) * DataRowsPerSheet;
    var hi := Min(k * DataRowsPerSheet, |rows|);
    assert base + DataRowsPerSheet == k * DataRowsPerSheet;
    if j <= MaxRowsPerSheet && j in SheetRows(headers, rows, k) {
      SheetDataOfLayout(headers, rows, k, j + 1);
      assert base + j - 2 < hi;
      SliceCons(rows, base + j - 2, hi);
    }
  }

  /** The workbook holds sheet k of the layout under the k-th sheet name, for every k up to count. */
  ghost predicate HoldsLayout(book: map<string, Sheet>, headers: seq<string>, rows: seq<seq<Slot>>) {
    forall k: Positive :: k <= SheetCount(|rows|) ==>
      SheetName(k) in book && book[SheetName(k)] == SheetRows(headers, rows, k)
  }

  /** One sheet's worth of DataRowsOfLayout. */
  lemma {:induction false} DataRowsStep(book: map<string, Sheet>, headers: seq<string>, rows: seq<seq<Slot>>, k: Positive, count: nat)
    requires k <= count
    requires SheetName(k) in book && book[SheetName(k)] == SheetRows(headers, rows, k)
    requires (k - 1) * DataRowsPerSheet <= |rows|
    requires DataRows(book, k + 1, count) == rows[Min(k * DataRowsPerSheet, |rows|)..]
    ensures DataRows(book, k, count) == rows[(k - 1) * DataRowsPerSheet..]
  {
    SheetDataOfLayout(headers, rows, k, 2);
    SliceSplit(rows, (k - 1) * DataRowsPerSheet, Min(k * DataRowsPerSheet, |rows|));
  }

  lemma {:induction false} DataRowsOfLayout(book: map<string, Sheet>, headers: seq<string>, rows: seq<seq<Slot>>, k: Positive)
    requires HoldsLayout(book, headers, rows)
    requires k <= SheetCount(|rows|) + 1
    ensures DataRows(book, k, SheetCount(|rows|)) == rows[Min((k - 1) * DataRowsPerSheet, |rows|)..]
    decreases SheetCount(|rows|) + 1 - k
  {
    var n: nat, s: nat := |rows|, SheetCount(|rows|);
    if k <= s {
      SheetStart(n, k);
      DataRowsOfLayout(book, headers, rows, k + 1);
      assert SheetName(k) in book && book[SheetName(k)] == SheetRows(headers, rows, k);
      DataRowsStep(book, headers, rows, k, s);
    } else {
      CountBounds(n);
      assert Min((k - 1) * DataRowsPerSheet, n) == n;
    }
  }

  /** Reading the data rows back sheet by sheet gives the rows in the order they were written. */
  lemma {:induction false} LayoutReadsBack(headers: seq<string>, rows: seq<seq<Slot>>)
    ensures DataRows(Layout(headers, rows), 1, SheetCount(|rows|)) == rows
  {
    forall k: Positive | k <= SheetCount(|rows|)
      ensures SheetName(k) in Layout(headers, rows) && Layout(headers, rows)[SheetName(k)] == SheetRows(headers, rows, k)
    {
      LayoutAt(headers, rows, k);
    }
    DataRowsOfLayout(Layout(headers, rows), headers, rows, 1);
  }
}
