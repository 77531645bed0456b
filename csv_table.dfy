/**
 * `render_csv`: choose a dialect (sniffed, else by the name's suffix), read
 * the rows, take the header, drop empty rows, clip by head or tail, build a
 * table, then right-justify and colour every column whose cells all look
 * numeric.
 */
module CsvTables {
  import opened Wrappers
  import opened Failures
  import opened Paths

  type Row = seq<string>

  function Max(a: int, b: int): int {
    if a < b then b else a
  }

  function Min(a: int, b: int): int {
    if a < b then a else b
  }

  // ----- dialect -----------------------------------------------------------

  /** The dialects the rows may be read with: csv's "excel", "excel-tab", or what the sniffer found. */
  datatype Dialect = Excel | ExcelTab | SniffedDialect(delimiter: char)

  /** What `csv.Sniffer` reports (delimiter and header presence), or the error it raised. */
  datatype Sniff = Sniffed(delimiter: char, hasHeader: bool) | SniffFailed(message: string)

  /** `csv_data[:1024]`: the sniffer only sees the first 1024 characters. */
  function SniffWindow(data: string): (w: string)
    ensures |w| == Min(|data|, 1024) && StartsWith(data, w)
  {
    if |data| <= 1024 then data else data[..1024]
  }

  /**
   * The sniffed dialect and header flag when sniffing succeeded; otherwise a
   * name ending in ".csv" or ".tsv", in any letter case, gives the comma or
   * tab dialect with a header, and any other name is an error carrying the
   * sniffer's message.
   */
  function ResolveDialect(resource: string, sniff: Sniff): (r: Result<(Dialect, bool), Error>)
    ensures sniff.Sniffed? ==> r == Ok((SniffedDialect(sniff.delimiter), sniff.hasHeader))
    ensures sniff.SniffFailed? ==>
              (r.Ok? <==> EndsWith(Lower(resource), ".csv") || EndsWith(Lower(resource), ".tsv"))
    ensures sniff.SniffFailed? && r.Ok? ==>
              r.value.1 && (r.value.0 == Excel <==> EndsWith(Lower(resource), ".csv"))
    ensures r.Err? ==> r.error == DelimiterDetection(sniff.message)
  {
    match sniff
    case Sniffed(delimiter, hasHeader) => Ok((SniffedDialect(delimiter), hasHeader))
    case SniffFailed(message) =>
      if EndsWith(Lower(resource), ".csv") then Ok((Excel, true))
      else if EndsWith(Lower(resource), ".tsv") then Ok((ExcelTab, true))
      else Err(DelimiterDetection(message))
  }

  /** A name ending in ".csv" in any letter case falls back to the comma dialect with a header. */
  lemma CsvSuffixFallback(stem: string, suffix: string, message: string)
    requires Lower(suffix) == ".csv"
    ensures ResolveDialect(stem + suffix, SniffFailed(message)) == Ok((Excel, true))
  {
    LowerAppend(stem, suffix);
    assert Lower(stem + suffix)[|stem|..] == ".csv";
  }

  /** A name ending in ".tsv" in any letter case falls back to the tab dialect with a header. */
  lemma TsvSuffixFallback(stem: string, suffix: string, message: string)
    requires Lower(suffix) == ".tsv"
    ensures ResolveDialect(stem + suffix, SniffFailed(message)) == Ok((ExcelTab, true))
  {
    LowerAppend(stem, suffix);
    var low := Lower(stem + suffix);
    assert low[|stem|..] == ".tsv";
    assert low[|low| - 4..] == ".tsv";
  }

  // ----- rows --------------------------------------------------------------

  /** `[row for row in rows if row]`. */
  function NonEmpty(rows: seq<Row>): (r: seq<Row>)
    ensures |r| <= |rows|
    ensures forall i :: 0 <= i < |r| ==> r[i] != [] && r[i] in rows
  {
    if rows == [] then []
    else (if rows[0] == [] then [] else [rows[0]]) + NonEmpty(rows[1..])
  }

  /** Filtering keeps the order: it distributes over concatenation. */
  lemma {:induction false} NonEmptyAppend(a: seq<Row>, b: seq<Row>)
    ensures NonEmpty(a + b) == NonEmpty(a) + NonEmpty(b)
  {
    if a != [] {
      assert (a + b)[0] == a[0];
      assert (a + b)[1..] == a[1..] + b;
      NonEmptyAppend(a[1..], b);
    } else {
      assert a + b == b;
    }
  }

  /** Rows that are all non-empty pass the filter unchanged. */
  lemma {:induction false} NonEmptyKeepsFilled(rows: seq<Row>)
    requires forall i :: 0 <= i < |rows| ==> rows[i] != []
    ensures NonEmpty(rows) == rows
  {
    if rows != [] {
      NonEmptyKeepsFilled(rows[1..]);
    }
  }

  /** `rows[:k]` with Python's slicing (a negative k counts from the end). */
  function SliceTo(rows: seq<Row>, k: int): (r: seq<Row>)
    ensures |r| <= |rows| && r == rows[..|r|]
  {
    if k >= 0 then rows[..Min(k, |rows|)] else rows[..Max(0, |rows| + k)]
  }

  /** `rows[k:]` with Python's slicing. */
  function SliceFrom(rows: seq<Row>, k: int): (r: seq<Row>)
    ensures |r| <= |rows| && r == rows[|rows| - |r|..]
  {
    if k >= 0 then rows[Min(k, |rows|)..] else rows[Max(0, |rows| + k)..]
  }

  /** Head, else tail, row clipping of `render_csv`; both given means head. */
  function ClipRows(rows: seq<Row>, head: Option<int>, tail: Option<int>): (r: seq<Row>)
    ensures exists lo, hi :: 0 <= lo <= hi <= |rows| && r == rows[lo..hi]
  {
    if head.Some? then
      var r := SliceTo(rows, head.value);
      assert r == rows[0..|r|];
      r
    else if tail.Some? then
      var r := SliceFrom(rows, -tail.value);
      assert r == rows[|rows| - |r|..|rows|];
      r
    else
      assert rows == rows[0..|rows|];
      rows
  }

  /** A positive head keeps the first `head` rows, whatever the tail. */
  lemma HeadKeepsFirstRows(rows: seq<Row>, head: int, tail: Option<int>)
    requires head >= 1
    ensures ClipRows(rows, Some(head), tail) == rows[..Min(head, |rows|)]
  {
  }

  /** Without a head, a positive tail keeps the last `tail` rows. */
  lemma TailKeepsLastRows(rows: seq<Row>, tail: int)
    requires tail >= 1
    ensures ClipRows(rows, None, Some(tail)) == rows[|rows| - Min(tail, |rows|)..]
  {
  }

  /** `rows[-0:]` is every row: a zero tail clips nothing. */
  lemma ZeroTailKeepsAllRows(rows: seq<Row>)
    ensures ClipRows(rows, None, Some(0)) == rows
  {
  }

  // ----- numeric cells -----------------------------------------------------

  predicate AllDigits(s: string) {
    forall i :: 0 <= i < |s| ==> IsDigit(s[i])
  }

  /** The number of leading ASCII digits. */
  function LeadingDigits(s: string): (k: nat)
    ensures k <= |s| && AllDigits(s[..k])
    ensures k < |s| ==> !IsDigit(s[k])
  {
    if |s| > 0 && IsDigit(s[0]) then
      var k := 1 + LeadingDigits(s[1..]);
      assert forall i :: 1 <= i < k ==> s[..k][i] == s[1..][..k - 1][i - 1];
      k
    else 0
  }

  /**
   * `re.compile(r"\-?[0-9]*?\.?[0-9]*?").fullmatch`: an optional minus,
   * digits, an optional point, digits; every part may be empty, so "-" and
   * "." match too.
   */
  function IsNumber(s: string): bool {
    var t := if |s| > 0 && s[0] == '-' then s[1..] else s;
    AllDigits(NumberTail(t[LeadingDigits(t)..]))
  }

  /** What follows the integer part once an optional point is skipped. */
  function NumberTail(u: string): string {
    if |u| > 0 && u[0] == '.' then u[1..] else u
  }

  /** The strings the regular expression describes, built part by part. */
  function NumberText(minus: bool, whole: string, point: bool, fraction: string): string {
    (if minus then "-" else "") + (whole + ((if point then "." else "") + fraction))
  }

  ghost predicate MatchesNumberPattern(s: string) {
    exists minus: bool, whole: string, point: bool, fraction: string ::
      AllDigits(whole) && AllDigits(fraction) && s == NumberText(minus, whole, point, fraction)
  }

  /** The recogniser accepts exactly the language of the regular expression. */
  lemma IsNumberMatchesPattern(s: string)
    ensures IsNumber(s) <==> MatchesNumberPattern(s)
  {
    if IsNumber(s) {
      RecognisedHasPattern(s);
    }
    if MatchesNumberPattern(s) {
      var minus: bool, whole: string, point: bool, fraction: string :|
        AllDigits(whole) && AllDigits(fraction) && s == NumberText(minus, whole, point, fraction);
      PatternRecognised(minus, whole, point, fraction);
    }
  }

  lemma RecognisedHasPattern(s: string)
    requires IsNumber(s)
    ensures MatchesNumberPattern(s)
  {
    if |s| > 0 && s[0] == '-' {
      assert s == "-" + s[1..];
      UnsignedHasPattern(s, true, s[1..]);
    } else {
      assert s == "" + s;
      UnsignedHasPattern(s, false, s);
    }
  }

  lemma UnsignedHasPattern(s: string, minus: bool, t: string)
    requires s == (if minus then "-" else "") + t
    requires AllDigits(NumberTail(t[LeadingDigits(t)..]))
    ensures MatchesNumberPattern(s)
  {
    var k := LeadingDigits(t);
    var u := t[k..];
    assert t == t[..k] + u;
    if |u| > 0 && u[0] == '.' {
      assert u == "." + u[1..];
      PatternWitness(s, minus, t[..k], true, u[1..]);
    } else {
      assert u == "" + u;
      PatternWitness(s, minus, t[..k], false, u);
    }
  }

  lemma PatternWitness(s: string, minus: bool, whole: string, point: bool, fraction: string)
    requires AllDigits(whole) && AllDigits(fraction) && s == NumberText(minus, whole, point, fraction)
    ensures MatchesNumberPattern(s)
  {
  }

  lemma PatternRecognised(minus: bool, whole: string, point: bool, fraction: string)
    requires AllDigits(whole) && AllDigits(fraction)
    ensures IsNumber(NumberText(minus, whole, point, fraction))
  {
    var rest := whole + ((if point then "." else "") + fraction);
    var s := NumberText(minus, whole, point, fraction);
    UnsignedStart(whole, point, fraction);
    UnsignedRecognised(whole, point, fraction);
    if minus {
      assert s == "-" + rest;
      assert s[1..] == rest;
    } else {
      assert s == "" + rest == rest;
    }
  }

  /** The unsigned part of a number-shaped string never starts with '-'. */
  lemma UnsignedStart(whole: string, point: bool, fraction: string)
    requires AllDigits(whole) && AllDigits(fraction)
    ensures var rest := whole + ((if point then "." else "") + fraction);
            |rest| == 0 || rest[0] != '-'
  {
    var rest := whole + ((if point then "." else "") + fraction);
    if |whole| > 0 {
      assert rest[0] == whole[0];
    } else if point {
      assert rest[0] == '.';
    } else if |fraction| > 0 {
      assert rest[0] == fraction[0];
    }
  }

  /** The unsigned part of a number-shaped string passes the recogniser's digit checks. */
  lemma UnsignedRecognised(whole: string, point: bool, fraction: string)
    requires AllDigits(whole) && AllDigits(fraction)
    ensures var rest := whole + ((if point then "." else "") + fraction);
            AllDigits(NumberTail(rest[LeadingDigits(rest)..]))
  {
    if point {
      var rest := whole + ("." + fraction);
      LeadingDigitsStop(whole, "." + fraction);
      assert rest[|whole|..] == "." + fraction;
      assert ("." + fraction)[1..] == fraction;
    } else {
      var rest := whole + ("" + fraction);
      assert rest == whole + fraction;
      assert AllDigits(rest);
      LeadingDigitsStop(rest, "");
      assert rest + "" == rest;
    }
  }

  lemma {:induction false} LeadingDigitsStop(digits: string, after: string)
    requires AllDigits(digits)
    requires |after| > 0 ==> !IsDigit(after[0])
    ensures LeadingDigits(digits + after) == |digits|
    decreases |digits|
  {
    if |digits| > 0 {
      assert (digits + after)[1..] == digits[1..] + after;
      LeadingDigitsStop(digits[1..], after);
    } else {
      assert digits + after == after;
    }
  }

  /** A cell the numeric test lets through: present, and empty or number-shaped. */
  predicate NumericCell(row: Row, index: nat) {
    index < |row| && (row[index] == "" || IsNumber(row[index]))
  }

  /** The for/else test: no retained row breaks the scan of this column. */
  predicate NumericColumn(rows: seq<Row>, index: nat) {
    forall k :: 0 <= k < |rows| ==> NumericCell(rows[k], index)
  }

  // ----- table -------------------------------------------------------------

  datatype Justify = JustifyLeft | JustifyRight

  /** A table column: header, justification, styles, and its cells top to bottom. */
  datatype Column = Column(header: string, justify: Justify, style: string, headerStyle: string, cells: seq<string>)

  const NumericStyle: string := "bold green"

  /** A column as `add_column` (or an implicit one) creates it: left-justified, unstyled. */
  function NewColumn(header: string, cells: seq<string>): Column {
    Column(header, JustifyLeft, "", "", cells)
  }

  /** The three attributes the numeric test sets. */
  function AsNumeric(c: Column): (r: Column)
    ensures r.header == c.header && r.cells == c.cells
    ensures r.justify == JustifyRight && r.style == NumericStyle && r.headerStyle == NumericStyle
  {
    c.(justify := JustifyRight, style := NumericStyle, headerStyle := NumericStyle)
  }

  datatype Box = HeavyHead | Square

  /** The cell a row gives a column: its own, or an empty cell when it is too short. */
  function CellAt(row: Row, index: nat): string {
    if index < |row| then row[index] else ""
  }

  function Blanks(n: nat): (r: seq<string>)
    ensures |r| == n && forall i :: 0 <= i < n ==> r[i] == ""
  {
    seq(n, _ => "")
  }

  /**
   * The columns after `Table.add_row(*cells)`: every existing column gets
   * the row's cell (an empty one when the row is short), and each cell past
   * the last column opens a new column whose earlier rows are empty.
   */
  function AppendRow(columns: seq<Column>, cells: Row, rowCount: nat): (r: seq<Column>)
    ensures |r| == Max(|columns|, |cells|)
    ensures forall i :: 0 <= i < |columns| ==>
              r[i] == columns[i].(cells := columns[i].cells + [CellAt(cells, i)])
    ensures forall i :: |columns| <= i < |r| ==> r[i] == NewColumn("", Blanks(rowCount) + [cells[i]])
  {
    seq(Max(|columns|, |cells|), i requires 0 <= i < Max(|columns|, |cells|) =>
      if i < |columns| then columns[i].(cells := columns[i].cells + [CellAt(cells, i)])
      else NewColumn("", Blanks(rowCount) + [cells[i]]))
  }

  /** The part of rich's Table that `render_csv` builds and adjusts. */
  class Table {
    var showHeader: bool
    var box: Box
    var borderStyle: string
    var title: string
    var caption: string
    var captionJustify: string
    var columns: seq<Column>
    var rowCount: nat

    /** Every column holds one cell per row. */
    ghost predicate Valid()
      reads this
    {
      forall i :: 0 <= i < |columns| ==> |columns[i].cells| == rowCount
    }

    constructor (showHeader: bool, box: Box, borderStyle: string, title: string, caption: string, captionJustify: string)
      ensures this.showHeader == showHeader && this.box == box && this.borderStyle == borderStyle
      ensures this.title == title && this.caption == caption && this.captionJustify == captionJustify
      ensures columns == [] && rowCount == 0 && Valid()
    {
      this.showHeader := showHeader;
      this.box := box;
      this.borderStyle := borderStyle;
      this.title := title;
      this.caption := caption;
      this.captionJustify := captionJustify;
      columns := [];
      rowCount := 0;
    }

    /** `add_column(header)`: a new empty column at the right. */
    method AddColumn(header: string)
      modifies this
      ensures columns == old(columns) + [NewColumn(header, [])]
      ensures rowCount == old(rowCount)
      ensures showHeader == old(showHeader) && box == old(box) && borderStyle == old(borderStyle)
      ensures title == old(title) && caption == old(caption) && captionJustify == old(captionJustify)
      ensures old(Valid()) && old(rowCount) == 0 ==> Valid()
    {
      columns := columns + [NewColumn(header, [])];
    }

    /** `add_row(*cells)`. */
    method AddRow(cells: Row)
      modifies this
      ensures columns == AppendRow(old(columns), cells, old(rowCount))
      ensures rowCount == old(rowCount) + 1
      ensures showHeader == old(showHeader) && box == old(box) && borderStyle == old(borderStyle)
      ensures title == old(title) && caption == old(caption) && captionJustify == old(captionJustify)
      ensures old(Valid()) ==> Valid()
    {
      columns := AppendRow(columns, cells, rowCount);
      rowCount := rowCount + 1;
    }
  }

  // ----- what the table holds ----------------------------------------------

  /** The number of columns: the header's, or the longest row's when that is longer. */
  function Width(header: Row, rows: seq<Row>): (w: nat)
    ensures w >= |header|
    ensures forall k :: 0 <= k < |rows| ==> |rows[k]| <= w
  {
    if rows == [] then |header|
    else
      var w := Max(Width(header, rows[..|rows| - 1]), |rows[|rows| - 1]|);
      assert forall k :: 0 <= k < |rows| - 1 ==> rows[k] == rows[..|rows| - 1][k];
      w
  }

  /** The cells of one column, one per row, top to bottom. */
  function ColumnCells(rows: seq<Row>, index: nat): (cells: seq<string>)
    ensures |cells| == |rows|
    ensures forall k :: 0 <= k < |rows| ==> cells[k] == CellAt(rows[k], index)
  {
    seq(|rows|, k requires 0 <= k < |rows| => CellAt(rows[k], index))
  }

  /** The columns once the header and the rows are in, before the numeric test. */
  function FilledColumns(header: Row, rows: seq<Row>): (cs: seq<Column>)
    ensures |cs| == Width(header, rows)
    ensures forall i :: 0 <= i < |cs| ==> cs[i] == NewColumn(CellAt(header, i), ColumnCells(rows, i))
  {
    seq(Width(header, rows), i requires 0 <= i < Width(header, rows) =>
      NewColumn(CellAt(header, i), ColumnCells(rows, i)))
  }

  /** The columns `render_csv` returns: numeric ones right-justified in bold green. */
  function ExpectedColumns(header: Row, rows: seq<Row>): (cs: seq<Column>)
    ensures |cs| == Width(header, rows)
    ensures forall i :: 0 <= i < |cs| ==> cs[i].header == CellAt(header, i) && cs[i].cells == ColumnCells(rows, i)
    ensures forall i :: 0 <= i < |cs| ==>
              (cs[i].justify == JustifyRight <==> NumericColumn(rows, i)) &&
              (cs[i].style == NumericStyle <==> NumericColumn(rows, i)) &&
              (cs[i].headerStyle == NumericStyle <==> NumericColumn(rows, i))
  {
    var filled := FilledColumns(header, rows);
    seq(|filled|, i requires 0 <= i < |filled| =>
      if NumericColumn(rows, i) then AsNumeric(filled[i]) else filled[i])
  }

  /** Adding one row to the filled columns is `add_row` on them. */
  lemma FilledColumnsStep(header: Row, rows: seq<Row>, row: Row)
    ensures FilledColumns(header, rows + [row]) == AppendRow(FilledColumns(header, rows), row, |rows|)
  {
    var rows' := rows + [row];
    assert rows'[..|rows'| - 1] == rows;
    var before := FilledColumns(header, rows);
    var after := FilledColumns(header, rows');
    var appended := AppendRow(before, row, |rows|);
    assert |after| == |appended|;
    forall i | 0 <= i < |after| ensures after[i] == appended[i] {
      var cells := ColumnCells(rows', i);
      assert after[i] == NewColumn(CellAt(header, i), cells);
      if i < |before| {
        assert cells == before[i].cells + [CellAt(row, i)];
      } else {
        assert CellAt(header, i) == "";
        assert forall k :: 0 <= k < |rows| ==> CellAt(rows[k], i) == "";
        assert cells == Blanks(|rows|) + [row[i]];
      }
    }
  }

  lemma MarkedAreExpected(header: Row, rows: seq<Row>, filled: seq<Column>, marked: seq<Column>)
    requires filled == FilledColumns(header, rows) && |marked| == |filled|
    requires forall i :: 0 <= i < |marked| ==>
               marked[i] == if NumericColumn(rows, i) then AsNumeric(filled[i]) else filled[i]
    ensures marked == ExpectedColumns(header, rows)
  {
  }

  /** A header "a,b" over rows "1,2" and "3,x": the first column is numeric, the second is not. */
  lemma SampleTableColumns()
    ensures var cs := ExpectedColumns(["a", "b"], [["1", "2"], ["3", "x"]]);
            && |cs| == 2
            && cs[0].header == "a" && cs[0].cells == ["1", "3"] && cs[0].justify == JustifyRight
            && cs[1].header == "b" && cs[1].cells == ["2", "x"] && cs[1].justify == JustifyLeft
  {
    var rows: seq<Row> := [["1", "2"], ["3", "x"]];
    assert rows[..1] == [["1", "2"]];
    assert Width(["a", "b"], rows) == 2;
    assert LeadingDigits("1") == 1 && LeadingDigits("3") == 1 && LeadingDigits("2") == 1;
    assert IsNumber("1") && IsNumber("3") && IsNumber("2");
    assert LeadingDigits("x") == 0;
    assert !IsNumber("x");
    assert NumericColumn(rows, 0);
    assert !NumericCell(rows[1], 1);
    assert ColumnCells(rows, 0) == ["1", "3"];
    assert ColumnCells(rows, 1) == ["2", "x"];
  }

  /**
   * The header, retained rows and header flag `render_csv` decides on, or
   * its error. `read` stands for iterating `csv.reader` to the end: it
   * gives every row, or the message of the `csv.Error` it raises (a bare
   * carriage return inside a line, a field over the size limit), which
   * escapes `render_csv` whether it comes at the header or later.
   */
  function CsvPlan(resource: string, head: Option<int>, tail: Option<int>, data: string,
                   sniff: string -> Sniff, read: (string, Dialect) -> Result<seq<Row>, string>)
    : (r: Result<(bool, Row, seq<Row>), Error>)
    ensures r.Err? ==> r.error.DelimiterDetection? || r.error.CsvReadFailed? || r.error == MissingHeaderRow
    ensures var d := ResolveDialect(resource, sniff(SniffWindow(data)));
            && (d.Err? ==> r == Err(d.error))
            && (d.Ok? && read(data, d.value.0).Err? ==> r == Err(CsvReadFailed(read(data, d.value.0).error)))
            && (d.Ok? && read(data, d.value.0).Ok? ==>
                  (r.Err? <==> d.value.1 && read(data, d.value.0).value == []))
            && (r.Ok? ==> d.Ok? && r.value.0 == d.value.1)
    ensures r.Ok? ==> forall k :: 0 <= k < |r.value.2| ==> r.value.2[k] != []
  {
    match ResolveDialect(resource, sniff(SniffWindow(data)))
    case Err(e) => Err(e)
    case Ok((dialect, hasHeader)) =>
      match read(data, dialect)
      case Err(message) => Err(CsvReadFailed(message))
      case Ok(raw) =>
      if hasHeader && raw == [] then Err(MissingHeaderRow)
      else
        var header := if hasHeader then raw[0] else [];
        var body := if hasHeader then raw[1..] else raw;
        Ok((hasHeader, header, ClipRows(NonEmpty(body), head, tail)))
  }

  /**
   * The table `render_csv` returns for a plan (header flag, header, retained
   * rows): a heavy-head box when there is a header, a blue border, the title
   * and a right-justified caption, the expected columns and one row per
   * retained row.
   */
  ghost predicate Renders(t: Table, title: string, caption: string, plan: (bool, Row, seq<Row>))
    reads t
  {
    && t.Valid()
    && t.showHeader == plan.0
    && t.box == (if plan.0 then HeavyHead else Square)
    && t.borderStyle == "blue" && t.captionJustify == "right"
    && t.title == title && t.caption == caption
    && t.columns == ExpectedColumns(plan.1, plan.2)
    && t.rowCount == |plan.2|
  }

  /** The `for column in header: table.add_column(column)` loop. */
  method AddHeader(table: Table, header: Row)
    requires table.columns == [] && table.rowCount == 0
    modifies table
    ensures table.columns == FilledColumns(header, []) && table.rowCount == 0
    ensures table.showHeader == old(table.showHeader) && table.box == old(table.box)
    ensures table.borderStyle == old(table.borderStyle) && table.captionJustify == old(table.captionJustify)
    ensures table.title == old(table.title) && table.caption == old(table.caption)
  {
    var i := 0;
    while i < |header|
      invariant 0 <= i <= |header|
      invariant table.columns == seq(i, j requires 0 <= j < i => NewColumn(header[j], []))
      invariant table.rowCount == 0
      invariant table.showHeader == old(table.showHeader) && table.box == old(table.box)
      invariant table.borderStyle == old(table.borderStyle) && table.captionJustify == old(table.captionJustify)
      invariant table.title == old(table.title) && table.caption == old(table.caption)
    {
      table.AddColumn(header[i]);
      i := i + 1;
    }
    assert Width(header, []) == |header|;
    forall j | 0 <= j < |header| ensures FilledColumns(header, [])[j] == NewColumn(header[j], []) {
      assert ColumnCells([], j) == [];
    }
  }

  /** The `for row in table_rows: if row: table.add_row(*row)` loop. */
  method AddRows(table: Table, header: Row, rows: seq<Row>)
    requires table.columns == FilledColumns(header, []) && table.rowCount == 0
    modifies table
    ensures table.columns == FilledColumns(header, NonEmpty(rows))
    ensures table.rowCount == |NonEmpty(rows)|
    ensures table.showHeader == old(table.showHeader) && table.box == old(table.box)
    ensures table.borderStyle == old(table.borderStyle) && table.captionJustify == old(table.captionJustify)
    ensures table.title == old(table.title) && table.caption == old(table.caption)
  {
    var k := 0;
    while k < |rows|
      invariant 0 <= k <= |rows|
      invariant table.columns == FilledColumns(header, NonEmpty(rows[..k]))
      invariant table.rowCount == |NonEmpty(rows[..k])|
      invariant table.showHeader == old(table.showHeader) && table.box == old(table.box)
      invariant table.borderStyle == old(table.borderStyle) && table.captionJustify == old(table.captionJustify)
      invariant table.title == old(table.title) && table.caption == old(table.caption)
    {
      var row := rows[k];
      assert rows[..k + 1] == rows[..k] + [row];
      NonEmptyAppend(rows[..k], [row]);
      assert NonEmpty([row]) == if row == [] then [] else [row] by {
        assert [row][1..] == [];
      }
      ghost var kept := NonEmpty(rows[..k]);
      if row != [] {
        FilledColumnsStep(header, kept, row);
        table.AddRow(row);
        assert NonEmpty(rows[..k + 1]) == kept + [row];
      } else {
        assert NonEmpty(rows[..k + 1]) == kept + [];
        assert kept + [] == kept;
      }
      k := k + 1;
    }
    assert rows[..k] == rows;
  }

  /**
   * The inner `for row in table_rows` scan of one column: it stops at the
   * first row that is too short (itemgetter's IndexError) or whose cell is
   * neither empty nor number-shaped; running off the end means numeric.
   */
  method ScanColumn(rows: seq<Row>, index: nat) returns (exhausted: bool)
    ensures exhausted <==> NumericColumn(rows, index)
  {
    exhausted := true;
    var m := 0;
    while m < |rows|
      invariant 0 <= m <= |rows|
      invariant exhausted
      invariant forall j :: 0 <= j < m ==> NumericCell(rows[j], index)
    {
      var row := rows[m];
      if index >= |row| {
        exhausted := false;
        break;
      }
      var value := row[index];
      if value != "" && !IsNumber(value) {
        exhausted := false;
        break;
      }
      m := m + 1;
    }
  }

  /**
   * The numeric pass: each column whose scan runs to the end becomes
   * right-justified and bold green; no other column changes.
   */
  method MarkNumeric(table: Table, rows: seq<Row>)
    modifies table
    ensures |table.columns| == |old(table.columns)|
    ensures forall i :: 0 <= i < |table.columns| ==>
              table.columns[i] == if NumericColumn(rows, i) then AsNumeric(old(table.columns)[i]) else old(table.columns)[i]
    ensures table.rowCount == old(table.rowCount)
    ensures table.showHeader == old(table.showHeader) && table.box == old(table.box)
    ensures table.borderStyle == old(table.borderStyle) && table.captionJustify == old(table.captionJustify)
    ensures table.title == old(table.title) && table.caption == old(table.caption)
  {
    ghost var before := table.columns;
    var index := 0;
    while index < |table.columns|
      invariant 0 <= index <= |before| == |table.columns|
      invariant forall i :: 0 <= i < index ==>
                  table.columns[i] == if NumericColumn(rows, i) then AsNumeric(before[i]) else before[i]
      invariant forall i :: index <= i < |before| ==> table.columns[i] == before[i]
      invariant table.rowCount == old(table.rowCount)
      invariant table.showHeader == old(table.showHeader) && table.box == old(table.box)
      invariant table.borderStyle == old(table.borderStyle) && table.captionJustify == old(table.captionJustify)
      invariant table.title == old(table.title) && table.caption == old(table.caption)
    {
      var numeric := ScanColumn(rows, index);
      if numeric {
        table.columns := table.columns[index := AsNumeric(table.columns[index])];
      }
      index := index + 1;
    }
  }

  /**
   * The reader's rows split into the header (taken first when there is
   * one) and the non-empty data rows, clipped by head or else tail.
   */
  method HeaderAndRows(rows: seq<Row>, hasHeader: bool, head: Option<int>, tail: Option<int>)
    returns (r: Result<(Row, seq<Row>), Error>)
    ensures r.Err? <==> hasHeader && rows == []
    ensures r.Err? ==> r.error == MissingHeaderRow
    ensures r.Ok? ==> r.value.0 == (if hasHeader then rows[0] else [])
    ensures r.Ok? ==> r.value.1 == ClipRows(NonEmpty(if hasHeader then rows[1..] else rows), head, tail)
  {
    var header: Row := [];
    var data := rows;
    if hasHeader {
      if data == [] {
        return Err(MissingHeaderRow);
      }
      header := data[0];
      data := data[1..];
    }
    var tableRows := NonEmpty(data);
    if head.Some? {
      tableRows := SliceTo(tableRows, head.value);
    } else if tail.Some? {
      tableRows := SliceFrom(tableRows, -tail.value);
    }
    return Ok((header, tableRows));
  }

  /**
   * Filling a new table from the header and the retained rows: the
   * column loop, the row loop and the numeric pass.
   */
  method Populate(table: Table, header: Row, rows: seq<Row>)
    requires table.columns == [] && table.rowCount == 0
    requires forall k :: 0 <= k < |rows| ==> rows[k] != []
    modifies table
    ensures table.Valid()
    ensures table.columns == ExpectedColumns(header, rows) && table.rowCount == |rows|
    ensures table.showHeader == old(table.showHeader) && table.box == old(table.box)
    ensures table.borderStyle == old(table.borderStyle) && table.captionJustify == old(table.captionJustify)
    ensures table.title == old(table.title) && table.caption == old(table.caption)
  {
    AddHeader(table, header);
    AddRows(table, header, rows);
    NonEmptyKeepsFilled(rows);
    ghost var filled := table.columns;
    MarkNumeric(table, rows);
    MarkedAreExpected(header, rows, filled, table.columns);
  }

  /**
   * `render_csv` over the text already read: `sniff` stands for
   * `csv.Sniffer` on a window of the text and `read` for `csv.reader`.
   */
  method RenderCsv(resource: string, head: Option<int>, tail: Option<int>, title: string, caption: string,
                   data: string, sniff: string -> Sniff, read: (string, Dialect) -> Result<seq<Row>, string>)
    returns (r: Result<Table, Error>)
    ensures var plan := CsvPlan(resource, head, tail, data, sniff, read);
            && (r.Err? <==> plan.Err?)
            && (r.Err? ==> r.error == plan.error)
            && (r.Ok? ==> fresh(r.value) && Renders(r.value, title, caption, plan.value))
  {
    var resolved := ResolveDialect(resource, sniff(SniffWindow(data)));
    if resolved.Err? {
      return Err(resolved.error);
    }
    var (dialect, hasHeader) := resolved.value;
    var table := new Table(hasHeader, if hasHeader then HeavyHead else Square, "blue", title, caption, "right");
    var rows := read(data, dialect);
    if rows.Err? {
      return Err(CsvReadFailed(rows.error));
    }
    var body := HeaderAndRows(rows.value, hasHeader, head, tail);
    if body.Err? {
      return Err(body.error);
    }
    var (header, tableRows) := body.value;
    Populate(table, header, tableRows);
    return Ok(table);
  }
}
