/** Writing a server list and reading it back: `parse_import` inverts a renderer on every list of rows it could
    itself have produced. */
module ImportTheorems {
  import opened Common
  import opened Csv
  import opened ImportParse
  import opened Text

  // ---- writing rows -------------------------------------------------------------------------------

  function CellOf(s: string): Cell { Quoted("", s, "") }

  function Shown(o: Option<string>): string { if o.Some? then o.value else "" }

  function PortText(p: Option<nat>): string { if p.Some? then Decimal(p.value) else "" }

  /** A row's columns, up to the last one present. */
  function Columns(r: Row): (c: seq<string>)
    ensures 2 <= |c| <= 5
  {
    var head := [r.name, r.host];
    if r.domain.Some? then
      head + [PortText(r.port), if r.group.Some? then Shown(r.group.value) else "", Shown(r.domain.value)]
    else if r.group.Some? then head + [PortText(r.port), Shown(r.group.value)]
    else if r.port.Some? then head + [PortText(r.port)]
    else head
  }

  function Cells(columns: seq<string>): (r: seq<Cell>)
    ensures |r| == |columns| && forall i | 0 <= i < |r| :: r[i] == CellOf(columns[i])
  {
    if columns == [] then [] else [CellOf(columns[0])] + Cells(columns[1..])
  }

  /** A row on one line, every column quoted. */
  function RowLine(r: Row): string { Join(Texts(Cells(Columns(r))), ',') }

  function Document(rows: seq<Row>): string {
    if rows == [] then "" else RowLine(rows[0]) + "\n" + Document(rows[1..])
  }

  /** A heading line, whatever its other columns are called. */
  function Heading(columns: string): string { "name," + columns }

  function Each(line: Row -> string, rows: seq<Row>): seq<string> {
    seq(|rows|, i requires 0 <= i < |rows| => line(rows[i]))
  }

  function RowLines(rows: seq<Row>): seq<string> { Each(RowLine, rows) }

  // ---- a row's columns ----------------------------------------------------------------------------

  /** No space at either end and no control characters. */
  predicate Clean(s: string) { Trim(s) == s && forall i | 0 <= i < |s| :: !IsControl(s[i]) }

  lemma HostIsClean(s: string)
    requires GoodHost(s)
    ensures Clean(s)
  {
    assert HostChar(s[0]) && HostChar(s[|s| - 1]);
    forall i | 0 <= i < |s| ensures !IsControl(s[i]) { assert HostChar(s[i]); }
  }

  lemma DomainIsClean(s: string)
    requires GoodDomain(s)
    ensures Clean(s)
  {
    assert !IsSpace(s[0]) && !IsSpace(s[|s| - 1]);
  }

  lemma DecimalIsClean(n: nat)
    ensures Clean(Decimal(n)) && Decimal(n) != ""
  {
    var s := Decimal(n);
    assert IsDigit(s[0]) && IsDigit(s[|s| - 1]);
    forall i | 0 <= i < |s| ensures !IsControl(s[i]) { assert IsDigit(s[i]); }
  }

  lemma ColumnsAreClean(r: Row)
    requires GoodRow(r)
    ensures forall i | 0 <= i < |Columns(r)| :: Clean(Columns(r)[i])
  {
    HostIsClean(r.host);
    if r.port.Some? { DecimalIsClean(r.port.value); }
    if r.domain.Some? && r.domain.value.Some? { DomainIsClean(r.domain.value.value); }
  }

  lemma PortReads(p: Option<nat>)
    requires p.Some? ==> 1 <= p.value < 65536
    ensures Trim(PortText(p)) == PortText(p) && ValidPort(PortText(p)) == Some(p)
  {
    if p.Some? {
      DecimalIsClean(p.value);
      ParseOfDecimal(p.value, 65536);
    }
  }

  lemma GroupReads(g: Option<string>)
    requires g.Some? ==> GoodName(g.value) && Trim(g.value) == g.value
    ensures Trim(Shown(g)) == Shown(g) && ValidGroup(Shown(g)) == Some(g)
  {
  }

  lemma DomainReads(d: Option<string>)
    requires d.Some? ==> GoodDomain(d.value)
    ensures ValidDomain(Shown(d)) == Some(d)
  {
    if d.Some? { DomainIsClean(d.value); }
  }

  /** A good row's columns are read as that row. */
  lemma ColumnsRead(r: Row)
    requires GoodRow(r)
    ensures ParseRow(Columns(r)) == Ok(r)
  {
    HostIsClean(r.host);
    PortReads(r.port);
    if r.group.Some? { GroupReads(r.group.value); }
    if r.domain.Some? { DomainReads(r.domain.value); }
  }

  lemma RowLineReads(r: Row)
    requires GoodRow(r)
    ensures Fields(RowLine(r)) == Some(Columns(r))
  {
    ColumnsAreClean(r);
    FieldsRoundTrip(Cells(Columns(r)));
    assert Contents(Cells(Columns(r))) == Columns(r);
  }

  // ---- a row's line -------------------------------------------------------------------------------

  lemma {:induction false} DoubledHasNo(s: string, x: char)
    requires x !in s
    ensures x !in Doubled(s)
  {
    if s != "" { DoubledHasNo(s[1..], x); }
  }

  lemma {:induction false} JoinHasNo(parts: seq<string>, x: char)
    requires |parts| >= 1 && x != ',' && forall i | 0 <= i < |parts| :: x !in parts[i]
    ensures x !in Join(parts, ',')
  {
    if |parts| > 1 { JoinHasNo(parts[1..], x); }
  }

  lemma {:induction false} JoinEndsQuoted(parts: seq<string>)
    requires |parts| >= 1 && forall i | 0 <= i < |parts| :: |parts[i]| >= 2 && parts[i][|parts[i]| - 1] == '"'
    ensures var s := Join(parts, ','); |s| >= 2 && s[|s| - 1] == '"' && s[0] == parts[0][0]
  {
    if |parts| > 1 { JoinEndsQuoted(parts[1..]); }
  }

  /** The line starts and ends with a quote and holds no newline: it is neither blank, comment nor heading. */
  lemma RowLineShape(r: Row)
    requires GoodRow(r)
    ensures var s := RowLine(r);
            |s| >= 2 && s[0] == '"' && s[|s| - 1] == '"' && '\n' !in s
  {
    var texts := Texts(Cells(Columns(r)));
    ColumnsAreClean(r);
    forall i | 0 <= i < |texts|
      ensures |texts[i]| >= 2 && texts[i][0] == '"' && texts[i][|texts[i]| - 1] == '"' && '\n' !in texts[i]
    {
      var c := Columns(r)[i];
      assert Clean(c);
      assert '\n' !in c;
      DoubledHasNo(c, '\n');
      assert texts[i] == "" + Quote(c) + "";
    }
    JoinEndsQuoted(texts);
    JoinHasNo(texts, '\n');
  }

  lemma RowLineIsContent(r: Row)
    requires GoodRow(r)
    ensures var s := RowLine(r); Trim(s) == s && !IsSkipped(s) && !IsHeader(s)
  {
    var s := RowLine(r);
    RowLineShape(r);
    assert !IsSpace(s[0]) && !IsSpace(s[|s| - 1]);
    assert LowerAll(s)[0] == LowerAscii(s[0]);
  }

  // ---- the whole list -----------------------------------------------------------------------------

  lemma {:induction false} DocumentLines(rows: seq<Row>)
    requires forall i | 0 <= i < |rows| :: GoodRow(rows[i])
    ensures Lines(Document(rows)) == RowLines(rows)
  {
    if rows != [] {
      RowLineShape(rows[0]);
      DocumentLines(rows[1..]);
      LineCut(RowLine(rows[0]), Document(rows[1..]));
      FirstLine(RowLine, rows);
    }
  }

  lemma FirstLine(line: Row -> string, rows: seq<Row>)
    requires rows != []
    ensures Each(line, rows) == [line(rows[0])] + Each(line, rows[1..])
  {
  }

  lemma LineCut(line: string, rest: string)
    requires '\n' !in line && |line| >= 1 && line[|line| - 1] != '\r'
    ensures Lines(line + "\n" + rest) == [line] + Lines(rest)
  {
    assert "\n" == ['\n'];
    SplitOnceAt(line, '\n', rest);
  }

  function Lowers(lower: string -> string, rows: seq<Row>): set<string> {
    set i | 0 <= i < |rows| :: lower(rows[i].name)
  }

  function Taken(lower: string -> string, s: State, r: Row): State {
    s.(rows := s.rows + [r], seen := s.seen + {lower(r.name)}, first := false)
  }

  /** In any state that has not seen its name, the line adds the row. */
  ghost predicate Takes(lower: string -> string, line: string, r: Row) {
    forall s: State, n: nat | lower(r.name) !in s.seen :: Line(lower, s, n, line) == Taken(lower, s, r)
  }

  lemma RowLineTakes(lower: string -> string, r: Row)
    requires GoodRow(r)
    ensures Takes(lower, RowLine(r), r)
  {
    RowLineIsContent(r);
    RowLineReads(r);
    ColumnsRead(r);
  }

  lemma TakeLast(lower: string -> string, lines: seq<string>, line: string, r: Row)
    requires Takes(lower, line, r) && lower(r.name) !in Fold(lower, lines).seen
    ensures Fold(lower, lines + [line]) == Taken(lower, Fold(lower, lines), r)
  {
    FoldLast(lower, lines, line);
  }

  /** Behind any lines whose state has not seen its name, the line adds the row; `fold` is the loop. */
  ghost predicate Adds(fold: seq<string> -> State, lower: string -> string, line: string, r: Row) {
    forall ls | lower(r.name) !in fold(ls).seen :: fold(ls + [line]) == Taken(lower, fold(ls), r)
  }

  /** Lines that add their rows, behind any that left nothing. */
  lemma {:induction false} FoldTaken(fold: seq<string> -> State, lower: string -> string, pre: seq<string>,
                                     lines: seq<string>, rows: seq<Row>)
    requires fold(pre).rows == [] && fold(pre).errors == [] && fold(pre).seen == {}
    requires |lines| == |rows| && DistinctNames(lower, rows)
    requires forall i | 0 <= i < |rows| :: Adds(fold, lower, lines[i], rows[i])
    ensures var s := fold(pre + lines);
            s.rows == rows && s.errors == [] && s.seen == Lowers(lower, rows)
    decreases |rows|
  {
    var n := |rows| - 1;
    if rows == [] {
      assert pre + lines == pre;
    } else {
      FoldTaken(fold, lower, pre, lines[..n], rows[..n]);
      LowersStep(lower, rows);
      assert Adds(fold, lower, lines[n], rows[n]);
      assert pre + lines == pre + lines[..n] + [lines[n]];
      assert rows == rows[..n] + [rows[n]];
    }
  }

  lemma FoldRows(lower: string -> string, pre: seq<string>, lines: seq<string>, rows: seq<Row>)
    requires Fold(lower, pre).(first := true) == State([], [], {}, true)
    requires |lines| == |rows| && DistinctNames(lower, rows)
    requires forall i | 0 <= i < |rows| :: Takes(lower, lines[i], rows[i])
    ensures var s := Fold(lower, pre + lines);
            s.rows == rows && s.errors == [] && s.seen == Lowers(lower, rows)
  {
    var fold := ls => Fold(lower, ls);
    forall i | 0 <= i < |rows| ensures Adds(fold, lower, lines[i], rows[i]) {
      forall ls | lower(rows[i].name) !in fold(ls).seen
        ensures fold(ls + [lines[i]]) == Taken(lower, fold(ls), rows[i])
      {
        TakeLast(lower, ls, lines[i], rows[i]);
      }
    }
    FoldTaken(fold, lower, pre, lines, rows);
  }

  lemma FoldLast(lower: string -> string, lines: seq<string>, line: string)
    ensures Fold(lower, lines + [line]) == Line(lower, Fold(lower, lines), |lines| + 1, line)
  {
    assert (lines + [line])[..|lines|] == lines;
  }

  lemma LowersStep(lower: string -> string, rows: seq<Row>)
    requires |rows| > 0 && DistinctNames(lower, rows)
    ensures var n := |rows| - 1;
            && lower(rows[n].name) !in Lowers(lower, rows[..n])
            && Lowers(lower, rows) == Lowers(lower, rows[..n]) + {lower(rows[n].name)}
  {
    var n := |rows| - 1;
    forall x | x in Lowers(lower, rows) ensures x in Lowers(lower, rows[..n]) + {lower(rows[n].name)} {
      var i :| 0 <= i < |rows| && lower(rows[i].name) == x;
      if i < n { assert rows[..n][i] == rows[i]; }
    }
    forall x | x in Lowers(lower, rows[..n]) ensures x in Lowers(lower, rows) {
      var i :| 0 <= i < n && lower(rows[..n][i].name) == x;
      assert rows[i] == rows[..n][i];
    }
    assert rows[n].name == rows[n].name && lower(rows[n].name) in Lowers(lower, rows);
  }

  lemma RowLinesTake(lower: string -> string, rows: seq<Row>)
    requires forall i | 0 <= i < |rows| :: GoodRow(rows[i])
    ensures forall i | 0 <= i < |rows| :: Takes(lower, RowLines(rows)[i], rows[i])
  {
    forall i | 0 <= i < |rows| ensures Takes(lower, RowLines(rows)[i], rows[i]) { RowLineTakes(lower, rows[i]); }
  }

  /** Lines that give one row each, behind lines that give none. */
  lemma ImportOf(lower: string -> string, text: string, pre: seq<string>, lines: seq<string>, rows: seq<Row>)
    requires Lines(text) == pre + lines && Fold(lower, pre).(first := true) == State([], [], {}, true)
    requires |lines| == |rows| && DistinctNames(lower, rows)
    requires forall i | 0 <= i < |rows| :: Takes(lower, lines[i], rows[i])
    ensures Import(lower, text) == Ok(rows)
  {
    FoldRows(lower, pre, lines, rows);
  }

  lemma ImportOfAll(lower: string -> string, text: string, rows: seq<Row>)
    requires |Lines(text)| == |rows| && DistinctNames(lower, rows)
    requires forall i | 0 <= i < |rows| :: Takes(lower, Lines(text)[i], rows[i])
    ensures Import(lower, text) == Ok(rows)
  {
    assert Lines(text) == [] + Lines(text);
    ImportOf(lower, text, [], Lines(text), rows);
  }

  /** Every list of good rows with distinct names survives being written and read; an accepted list is such
      a list. */
  lemma ImportInverts(lower: string -> string, rows: seq<Row>)
    requires DistinctNames(lower, rows) && forall i | 0 <= i < |rows| :: GoodRow(rows[i])
    ensures Import(lower, Document(rows)) == Ok(rows)
  {
    DocumentLines(rows);
    RowLinesTake(lower, rows);
    ImportOfAll(lower, Document(rows), rows);
  }

  lemma ImportBehind(lower: string -> string, line: string, rows: seq<Row>)
    requires DistinctNames(lower, rows) && forall i | 0 <= i < |rows| :: GoodRow(rows[i])
    requires '\n' !in line && |line| >= 1 && line[|line| - 1] != '\r'
    requires Fold(lower, [line]).(first := true) == State([], [], {}, true)
    ensures Import(lower, line + "\n" + Document(rows)) == Ok(rows)
  {
    DocumentLines(rows);
    RowLinesTake(lower, rows);
    LineCut(line, Document(rows));
    ImportOf(lower, line + "\n" + Document(rows), [line], RowLines(rows), rows);
  }

  /** So it does under a heading. */
  lemma ImportSkipsHeading(lower: string -> string, rows: seq<Row>, columns: string)
    requires DistinctNames(lower, rows) && forall i | 0 <= i < |rows| :: GoodRow(rows[i])
    requires columns != "" && !IsSpace(columns[|columns| - 1]) && '\n' !in columns
    ensures Import(lower, Heading(columns) + "\n" + Document(rows)) == Ok(rows)
  {
    HeadingIsSkipped(lower, columns);
    HeadingShape(columns);
    ImportBehind(lower, Heading(columns), rows);
  }

  lemma HeadingShape(columns: string)
    requires columns != "" && !IsSpace(columns[|columns| - 1]) && '\n' !in columns
    ensures var line := Heading(columns);
            '\n' !in line && |line| >= 1 && line[|line| - 1] != '\r' && !IsSpace(line[0]) && !IsSpace(line[|line| - 1])
  {
  }

  lemma HeadingIsSkipped(lower: string -> string, columns: string)
    requires columns != "" && !IsSpace(columns[|columns| - 1])
    ensures Fold(lower, [Heading(columns)]) == State([], [], {}, false)
  {
    var line := Heading(columns);
    assert !IsSpace(line[0]) && !IsSpace(line[|line| - 1]);
    assert Trim(line) == line;
    LowerPrefix("name,", columns);
    LowerName();
    assert [] + [line] == [line];
    FoldLast(lower, [], line);
  }

  lemma LowerName()
    ensures LowerAll("name,") == "name,"
  {
    assert LowerAll("name,") == "n" + LowerAll("ame,") && LowerAll("ame,") == "a" + LowerAll("me,");
    assert LowerAll("me,") == "m" + LowerAll("e,") && LowerAll("e,") == "e" + LowerAll(",");
  }

  lemma {:induction false} LowerPrefix(a: string, b: string)
    ensures LowerAll(a + b) == LowerAll(a) + LowerAll(b)
  {
    if a == "" {
      assert a + b == b;
    } else {
      assert (a + b)[1..] == a[1..] + b;
      LowerPrefix(a[1..], b);
    }
  }

  /** Reading, writing and reading again gives what was read first. */
  lemma ImportIsStable(lower: string -> string, text: string)
    requires Import(lower, text).Ok?
    ensures Import(lower, Document(Import(lower, text).value)) == Import(lower, text)
  {
    ImportIsSound(lower, text);
    ImportInverts(lower, Import(lower, text).value);
  }
}
