/** The server list an administrator pastes (`parse_import` in `admin.rs`): lines to rows, every fault with its
    line. Unicode lower-casing comes in as a parameter. */
module ImportParse {
  import opened Common
  import opened Csv
  import opened Text

  /** An absent column is `None`; a present, empty one is `Some(None)`. */
  datatype Row = Row(name: string, host: string, port: Option<nat>, group: Option<Option<string>>,
                     domain: Option<Option<string>>)

  datatype Fault = BadQuote | BadColumns | BadName | BadHost | BadPort | BadGroup | BadDomain | Twice

  // ---- fields -------------------------------------------------------------------------------------

  predicate IsControl(c: char) { c < ' ' || '\U{7f}' <= c <= '\U{9f}' }

  predicate GoodName(s: string) { 1 <= |s| <= 100 && forall i | 0 <= i < |s| :: !IsControl(s[i]) }

  function ValidName(name: string): Option<string> {
    var s := Trim(name);
    if GoodName(s) then Some(s) else None
  }

  function Colons(s: string): nat { if s == "" then 0 else (if s[0] == ':' then 1 else 0) + Colons(s[1..]) }

  predicate HostChar(c: char) {
    IsDigit(c) || 'a' <= c <= 'z' || 'A' <= c <= 'Z' || c == '.' || c == '-' || c == '_' || c == ':'
  }

  predicate GoodHost(s: string) {
    Colons(s) != 1 && 1 <= |s| <= 253 && forall i | 0 <= i < |s| :: HostChar(s[i])
  }

  function ValidHost(host: string): Option<string> {
    var s := Trim(host);
    if GoodHost(s) then Some(s) else None
  }

  /** Bytes of a text in UTF-8. */
  function Utf8Length(s: string): nat {
    if s == "" then 0
    else
      var n := s[0] as int;
      (if n < 0x80 then 1 else if n < 0x800 then 2 else if n < 0x10000 then 3 else 4) + Utf8Length(s[1..])
  }

  predicate GoodDomain(s: string) {
    s != "" && Utf8Length(s) <= 255
    && forall i | 0 <= i < |s| ::
         !IsSpace(s[i]) && !IsControl(s[i]) && s[i] != '\\' && s[i] != '@' && s[i] != '/'
  }

  function ValidDomain(domain: string): Option<Option<string>> {
    var s := Trim(domain);
    if s == "" then Some(None) else if GoodDomain(s) then Some(Some(s)) else None
  }

  function ValidPort(cell: string): Option<Option<nat>> {
    if cell == "" then Some(None)
    else match ParseUnsigned(cell, 65536)
      case None => None
      case Some(p) => if p > 0 then Some(Some(p)) else None
  }

  function ValidGroup(cell: string): Option<Option<string>> {
    if cell == "" then Some(None)
    else match ValidName(cell)
      case None => None
      case Some(g) => Some(Some(g))
  }

  /** One row from its fields, first fault first. */
  function ParseRow(f: seq<string>): Result<Row, Fault> {
    if |f| < 2 || |f| > 5 then Err(BadColumns)
    else
      var name, host := ValidName(f[0]), ValidHost(f[1]);
      var port := ValidPort(if |f| > 2 then Trim(f[2]) else "");
      var group := if |f| > 3 then ValidGroup(Trim(f[3])) else Some(None);
      var domain := if |f| > 4 then ValidDomain(f[4]) else Some(None);
      if name.None? then Err(BadName)
      else if host.None? then Err(BadHost)
      else if port.None? then Err(BadPort)
      else if group.None? then Err(BadGroup)
      else if domain.None? then Err(BadDomain)
      else Ok(Row(name.value, host.value, port.value,
                  if |f| > 3 then Some(group.value) else None,
                  if |f| > 4 then Some(domain.value) else None))
  }

  // ---- lines --------------------------------------------------------------------------------------

  /** `lines`: split behind each newline, which goes with a carriage return before it. */
  function Lines(text: string): seq<string>
    decreases |text|
  {
    if text == "" then []
    else match SplitOnce(text, '\n')
      case None => [text]
      case Some(p) =>
        var line := if p.0 != "" && p.0[|p.0| - 1] == '\r' then p.0[..|p.0| - 1] else p.0;
        [line] + Lines(p.1)
  }

  function LowerAll(s: string): (r: string)
    ensures |r| == |s|
  {
    if s == "" then "" else [LowerAscii(s[0])] + LowerAll(s[1..])
  }

  predicate IsHeader(line: string) { "name," <= LowerAll(line) }

  predicate IsSkipped(line: string) { line == "" || line[0] == '#' }

  // ---- the whole text -----------------------------------------------------------------------------

  /** The loop's variables. */
  datatype State = State(rows: seq<Row>, errors: seq<(nat, Fault)>, seen: set<string>, first: bool)

  function Refuse(s: State, n: nat, why: Fault): State { s.(errors := s.errors + [(n, why)], first := false) }

  /** One content line, not the header. */
  function Content(lower: string -> string, s: State, n: nat, line: string): State {
    match Fields(line)
    case None => Refuse(s, n, BadQuote)
    case Some(f) =>
      match ParseRow(f)
      case Err(why) => Refuse(s, n, why)
      case Ok(row) =>
        if lower(row.name) in s.seen then Refuse(s, n, Twice)
        else s.(rows := s.rows + [row], seen := s.seen + {lower(row.name)}, first := false)
  }

  function Line(lower: string -> string, s: State, n: nat, raw: string): State {
    var line := Trim(raw);
    if IsSkipped(line) then s
    else if s.first && IsHeader(line) then s.(first := false)
    else Content(lower, s, n, line)
  }

  function Fold(lower: string -> string, lines: seq<string>): State {
    if lines == [] then State([], [], {}, true)
    else Line(lower, Fold(lower, lines[..|lines| - 1]), |lines|, lines[|lines| - 1])
  }

  function Import(lower: string -> string, text: string): Result<seq<Row>, seq<(nat, Fault)>> {
    var s := Fold(lower, Lines(text));
    if s.errors == [] then Ok(s.rows) else Err(s.errors)
  }

  method ParseImport(lower: string -> string, text: string) returns (r: Result<seq<Row>, seq<(nat, Fault)>>)
    ensures r == Import(lower, text)
  {
    var rows: seq<Row>, errors: seq<(nat, Fault)>, seen: set<string>, first := [], [], {}, true;
    var lines := Lines(text);
    for i := 0 to |lines|
      invariant Fold(lower, lines[..i]) == State(rows, errors, seen, first)
    {
      assert lines[..i + 1][..i] == lines[..i];
      var n, line := i + 1, Trim(lines[i]);
      if line == "" || line[0] == '#' { continue; }
      if first {
        first := false;
        if "name," <= LowerAll(line) { continue; }
      }
      var fields := CsvFields(line);
      if fields.None? {
        errors := errors + [(n, BadQuote)];
        continue;
      }
      var row := ParseRow(fields.value);
      if row.Err? {
        errors := errors + [(n, row.error)];
        continue;
      }
      if lower(row.value.name) in seen {
        errors := errors + [(n, Twice)];
        continue;
      }
      seen := seen + {lower(row.value.name)};
      rows := rows + [row.value];
    }
    assert lines[..|lines|] == lines;
    if errors == [] { return Ok(rows); }
    return Err(errors);
  }

  // ---- what comes out -----------------------------------------------------------------------------

  /** What an import row can be. */
  predicate GoodRow(r: Row) {
    && GoodName(r.name) && Trim(r.name) == r.name
    && GoodHost(r.host)
    && (r.port.Some? ==> 1 <= r.port.value < 65536)
    && (r.group.Some? && r.group.value.Some? ==>
          GoodName(r.group.value.value) && Trim(r.group.value.value) == r.group.value.value)
    && (r.domain.Some? && r.domain.value.Some? ==> GoodDomain(r.domain.value.value))
    && (r.domain.Some? ==> r.group.Some?)
  }

  predicate DistinctNames(lower: string -> string, rows: seq<Row>) {
    forall i, j | 0 <= i < j < |rows| :: lower(rows[i].name) != lower(rows[j].name)
  }

  lemma {:induction false} TrimStartTrimmed(s: string)
    ensures var t := TrimStart(s); t == "" || !IsSpace(t[0])
  {
    if s != "" && IsSpace(s[0]) { TrimStartTrimmed(s[1..]); }
  }

  lemma {:induction false} TrimEndTrimmed(s: string)
    ensures var t := TrimEnd(s); (t == "" || !IsSpace(t[|t| - 1])) && t <= s
  {
    if s != "" && IsSpace(s[|s| - 1]) { TrimEndTrimmed(s[..|s| - 1]); }
  }

  predicate Trimmed(s: string) { s == "" || (!IsSpace(s[0]) && !IsSpace(s[|s| - 1])) }

  lemma TrimIsIdempotent(s: string)
    ensures Trimmed(Trim(s)) && Trim(Trim(s)) == Trim(s)
  {
    TrimStartTrimmed(s);
    TrimEndTrimmed(TrimStart(s));
  }

  lemma RowIsGood(f: seq<string>)
    requires ParseRow(f).Ok?
    ensures GoodRow(ParseRow(f).value)
  {
    TrimIsIdempotent(f[0]);
    if |f| > 3 { TrimIsIdempotent(Trim(f[3])); }
  }

  predicate SoundState(lower: string -> string, s: State) {
    && (forall i | 0 <= i < |s.rows| :: GoodRow(s.rows[i]) && lower(s.rows[i].name) in s.seen)
    && DistinctNames(lower, s.rows)
  }

  lemma {:induction false} FoldIsSound(lower: string -> string, lines: seq<string>)
    ensures SoundState(lower, Fold(lower, lines))
    decreases |lines|
  {
    if lines != [] {
      var s := Fold(lower, lines[..|lines| - 1]);
      FoldIsSound(lower, lines[..|lines| - 1]);
      ContentIsSound(lower, s, |lines|, Trim(lines[|lines| - 1]));
    }
  }

  lemma ContentIsSound(lower: string -> string, s: State, n: nat, line: string)
    requires SoundState(lower, s)
    ensures SoundState(lower, Content(lower, s, n, line))
  {
    if Fields(line).Some? {
      var row := ParseRow(Fields(line).value);
      if row.Ok? && lower(row.value.name) !in s.seen {
        RowIsGood(Fields(line).value);
        RowIsSound(lower, s, row.value);
      }
    }
  }

  lemma RowIsSound(lower: string -> string, s: State, row: Row)
    requires SoundState(lower, s) && GoodRow(row) && lower(row.name) !in s.seen
    ensures SoundState(lower, s.(rows := s.rows + [row], seen := s.seen + {lower(row.name)}, first := false))
  {
  }

  /** Whatever is accepted is good rows with distinct names, and no domain without a group column. */
  lemma ImportIsSound(lower: string -> string, text: string)
    requires Import(lower, text).Ok?
    ensures var rows := Import(lower, text).value;
            DistinctNames(lower, rows) && forall i | 0 <= i < |rows| :: GoodRow(rows[i])
  {
    FoldIsSound(lower, Lines(text));
  }

  // ---- every fault is reported --------------------------------------------------------------------

  /** Neither blank nor a comment nor the heading the first of such lines may be. */
  predicate IsContent(s: State, raw: string) {
    var line := Trim(raw); line != "" && line[0] != '#' && !(s.first && "name," <= LowerAll(line))
  }

  /** What is wrong with a line, given what was accepted before it. */
  function FaultOf(lower: string -> string, s: State, raw: string): Option<Fault> {
    if !IsContent(s, raw) then None
    else match Fields(Trim(raw))
      case None => Some(BadQuote)
      case Some(f) =>
        match ParseRow(f)
        case Err(why) => Some(why)
        case Ok(row) =>
          if exists i | 0 <= i < |s.rows| :: lower(s.rows[i].name) == lower(row.name) then Some(Twice) else None
  }

  predicate SeenAreRows(lower: string -> string, s: State) {
    forall x | x in s.seen :: exists i | 0 <= i < |s.rows| :: lower(s.rows[i].name) == x
  }

  lemma {:induction false} FoldSeen(lower: string -> string, lines: seq<string>)
    ensures SeenAreRows(lower, Fold(lower, lines))
    decreases |lines|
  {
    if lines != [] {
      FoldSeen(lower, lines[..|lines| - 1]);
      LineSeen(lower, Fold(lower, lines[..|lines| - 1]), |lines|, lines[|lines| - 1]);
    }
  }

  lemma LineSeen(lower: string -> string, s: State, n: nat, raw: string)
    requires SeenAreRows(lower, s)
    ensures SeenAreRows(lower, Line(lower, s, n, raw))
  {
    var s' := Line(lower, s, n, raw);
    forall x | x in s'.seen ensures exists i | 0 <= i < |s'.rows| :: lower(s'.rows[i].name) == x {
      if x in s.seen {
        var i :| 0 <= i < |s.rows| && lower(s.rows[i].name) == x;
        assert s'.rows[i] == s.rows[i];
      } else {
        assert lower(s'.rows[|s.rows|].name) == x;
      }
    }
  }

  /** A line adds one row, or its fault, or nothing. */
  lemma LineAdds(lower: string -> string, s: State, n: nat, raw: string)
    requires SoundState(lower, s) && SeenAreRows(lower, s)
    ensures var s', why := Line(lower, s, n, raw), FaultOf(lower, s, raw);
            && s'.errors == (if why.Some? then s.errors + [(n, why.value)] else s.errors)
            && |s'.rows| == |s.rows| + (if IsContent(s, raw) && why.None? then 1 else 0)
            && s.rows <= s'.rows
  {
    if IsContent(s, raw) {
      assert Line(lower, s, n, raw) == Content(lower, s, n, Trim(raw));
      ContentAdds(lower, s, n, raw);
    } else {
      assert Line(lower, s, n, raw) == s.(first := Line(lower, s, n, raw).first);
    }
  }

  lemma ContentAdds(lower: string -> string, s: State, n: nat, raw: string)
    requires SoundState(lower, s) && SeenAreRows(lower, s) && IsContent(s, raw)
    ensures var s', why := Content(lower, s, n, Trim(raw)), FaultOf(lower, s, raw);
            && s'.errors == (if why.Some? then s.errors + [(n, why.value)] else s.errors)
            && |s'.rows| == |s.rows| + (if why.None? then 1 else 0)
            && s.rows <= s'.rows
  {
  }

  lemma LastIsReported(lower: string -> string, lines: seq<string>)
    requires lines != []
    ensures var k := |lines| - 1;
            var s, why := Fold(lower, lines[..k]), FaultOf(lower, Fold(lower, lines[..k]), lines[k]);
            Fold(lower, lines).errors == if why.Some? then s.errors + [(k + 1, why.value)] else s.errors
  {
    var k := |lines| - 1;
    FoldIsSound(lower, lines[..k]);
    FoldSeen(lower, lines[..k]);
    LineAdds(lower, Fold(lower, lines[..k]), k + 1, lines[k]);
  }

  /** `fault` is the fault of the last line of a list, and `errors` collects them. */
  ghost predicate Collects(errors: seq<string> -> seq<(nat, Fault)>, fault: seq<string> -> Option<Fault>,
                           ls: seq<string>)
  {
    ls != [] ==>
      errors(ls) == errors(ls[..|ls| - 1]) + (if fault(ls).Some? then [(|ls|, fault(ls).value)] else [])
  }

  lemma {:induction false} CollectsAll(errors: seq<string> -> seq<(nat, Fault)>, fault: seq<string> -> Option<Fault>,
                                       lines: seq<string>, n: nat, why: Fault)
    requires errors([]) == [] && forall ls :: Collects(errors, fault, ls)
    ensures (n, why) in errors(lines) <==> 1 <= n <= |lines| && fault(lines[..n]) == Some(why)
    decreases |lines|
  {
    assert Collects(errors, fault, lines);
    if lines == [] {
    } else if n == |lines| {
      var k := |lines| - 1;
      CollectsAll(errors, fault, lines[..k], n, why);
      assert lines[..n] == lines;
    } else {
      var k := |lines| - 1;
      CollectsAll(errors, fault, lines[..k], n, why);
      if 1 <= n <= k { assert lines[..k][..n] == lines[..n]; }
    }
  }

  function LastFault(lower: string -> string, lines: seq<string>): Option<Fault> {
    if lines == [] then None
    else FaultOf(lower, Fold(lower, lines[..|lines| - 1]), lines[|lines| - 1])
  }

  /** The list of faults holds exactly the faulty lines, each with its number. */
  lemma FaultsAreReported(lower: string -> string, lines: seq<string>, n: nat, why: Fault)
    ensures (n, why) in Fold(lower, lines).errors <==> 1 <= n <= |lines| && LastFault(lower, lines[..n]) == Some(why)
  {
    var errors := ls => Fold(lower, ls).errors;
    var fault := ls => LastFault(lower, ls);
    forall ls ensures Collects(errors, fault, ls) {
      if ls != [] { LastIsReported(lower, ls); }
    }
    CollectsAll(errors, fault, lines, n, why);
  }

  /** The lines that are neither blank, comment nor heading. */
  function ContentLines(lower: string -> string, lines: seq<string>): nat {
    if lines == [] then 0
    else
      var k := |lines| - 1;
      ContentLines(lower, lines[..k]) + (if IsContent(Fold(lower, lines[..k]), lines[k]) then 1 else 0)
  }

  /** No line is lost: each content line is one row or one fault. */
  lemma {:induction false} LinesAreCounted(lower: string -> string, lines: seq<string>)
    ensures |Fold(lower, lines).rows| + |Fold(lower, lines).errors| == ContentLines(lower, lines)
    decreases |lines|
  {
    if lines != [] {
      var k := |lines| - 1;
      LinesAreCounted(lower, lines[..k]);
      FoldIsSound(lower, lines[..k]);
      FoldSeen(lower, lines[..k]);
      LineAdds(lower, Fold(lower, lines[..k]), |lines|, lines[k]);
    }
  }

  // ---- comments -----------------------------------------------------------------------------------

  /** A blank line, or one whose first letter that is not a space is `#`. */
  predicate IsComment(raw: string) { Trim(raw) == "" || Trim(raw)[0] == '#' }

  /** The faults behind line `n` when a line is put in there. */
  function Shifted(errors: seq<(nat, Fault)>, n: nat): seq<(nat, Fault)> {
    seq(|errors|, i requires 0 <= i < |errors| =>
      if errors[i].0 <= n then errors[i] else (errors[i].0 + 1, errors[i].1))
  }

  /** The same but for faults that are one line further down. */
  predicate SameButShifted(s: State, s': State, n: nat) {
    s'.rows == s.rows && s'.seen == s.seen && s'.first == s.first && s'.errors == Shifted(s.errors, n)
  }

  lemma LineShifts(lower: string -> string, s: State, s': State, n: nat, m: nat, raw: string)
    requires SameButShifted(s, s', n) && n < m
    ensures SameButShifted(Line(lower, s, m, raw), Line(lower, s', m + 1, raw), n)
  {
  }

  lemma {:induction false} FoldNumbers(lower: string -> string, lines: seq<string>)
    ensures forall i | 0 <= i < |Fold(lower, lines).errors| :: Fold(lower, lines).errors[i].0 <= |lines|
    decreases |lines|
  {
    if lines != [] { FoldNumbers(lower, lines[..|lines| - 1]); }
  }

  lemma {:induction false} LineByLine(P: seq<string> -> bool, lines: seq<string>)
    requires P([]) && forall ls, x {:trigger P(ls + [x])} | P(ls) :: P(ls + [x])
    ensures P(lines)
    decreases |lines|
  {
    if lines != [] {
      LineByLine(P, lines[..|lines| - 1]);
      assert lines == lines[..|lines| - 1] + [lines[|lines| - 1]];
    }
  }

  lemma LastShifts(lower: string -> string, a: seq<string>, b: seq<string>, n: nat, last: string)
    requires |b| == |a| + 1 && n <= |a| && SameButShifted(Fold(lower, a), Fold(lower, b), n)
    ensures SameButShifted(Fold(lower, a + [last]), Fold(lower, b + [last]), n)
  {
    LastFold(lower, a, last);
    LastFold(lower, b, last);
    LineShifts(lower, Fold(lower, a), Fold(lower, b), n, |a| + 1, last);
  }

  lemma CommentFolds(lower: string -> string, pre: seq<string>, c: string)
    requires IsComment(c)
    ensures SameButShifted(Fold(lower, pre), Fold(lower, pre + [c]), |pre|)
  {
    assert (pre + [c])[..|pre|] == pre;
    FoldNumbers(lower, pre);
  }

  /** Blank lines and comments change nothing, wherever they stand and whatever they say: the rows are the same, the
      heading is found all the same, and the faults are the same with their own line numbers. */
  lemma CommentsAreIgnored(lower: string -> string, pre: seq<string>, c: string, post: seq<string>)
    requires IsComment(c)
    ensures SameButShifted(Fold(lower, pre + post), Fold(lower, pre + [c] + post), |pre|)
  {
    var P := ls => SameButShifted(Fold(lower, pre + ls), Fold(lower, pre + [c] + ls), |pre|);
    assert P([]) by {
      CommentFolds(lower, pre, c);
      assert pre + [] == pre && pre + [c] + [] == pre + [c];
    }
    forall ls, x | P(ls) ensures P(ls + [x]) {
      LastShifts(lower, pre + ls, pre + [c] + ls, |pre|, x);
      assert pre + (ls + [x]) == pre + ls + [x] && pre + [c] + (ls + [x]) == pre + [c] + ls + [x];
    }
    LineByLine(P, post);
  }

  lemma LastFold(lower: string -> string, lines: seq<string>, last: string)
    ensures Fold(lower, lines + [last]) == Line(lower, Fold(lower, lines), |lines| + 1, last)
  {
    assert (lines + [last])[..|lines|] == lines;
  }

  // ---- what a row says ----------------------------------------------------------------------------

  /** The text of a column, if the row has it. */
  function Cell(f: seq<string>, k: nat): Option<string> { if k < |f| then Some(Trim(f[k])) else None }

  predicate PortReads(cell: Option<string>) {
    cell.Some? && cell.value != "" ==>
      var n := ParseUnsigned(cell.value, 65536); n.Some? && n.value > 0
  }

  predicate NameReads(cell: Option<string>) { cell.Some? && cell.value != "" ==> GoodName(cell.value) }

  predicate DomainReads(cell: Option<string>) { cell.Some? && cell.value != "" ==> GoodDomain(cell.value) }

  /** The first thing wrong with a row, from the left. */
  function FirstFault(f: seq<string>): Option<Fault> {
    if |f| < 2 || |f| > 5 then Some(BadColumns)
    else if !GoodName(Trim(f[0])) then Some(BadName)
    else if !GoodHost(Trim(f[1])) then Some(BadHost)
    else if !PortReads(Cell(f, 2)) then Some(BadPort)
    else if !NameReads(Cell(f, 3)) then Some(BadGroup)
    else if !DomainReads(Cell(f, 4)) then Some(BadDomain)
    else None
  }

  /** A column that is there and may be empty. */
  function Given(cell: Option<string>): Option<Option<string>> {
    if cell.None? then None else if cell.value == "" then Some(None) else Some(cell)
  }

  /** A row is refused exactly for its first fault, and otherwise holds its columns without the space around them; a
      column that is missing is told from one that is empty. */
  lemma RowReadsExactly(f: seq<string>)
    ensures ParseRow(f).Err? <==> FirstFault(f).Some?
    ensures ParseRow(f).Err? ==> FirstFault(f) == Some(ParseRow(f).error)
    ensures ParseRow(f).Ok? ==>
              var r := ParseRow(f).value;
              && r.name == Trim(f[0]) && r.host == Trim(f[1])
              && (r.port.None? <==> Cell(f, 2).None? || Cell(f, 2) == Some(""))
              && (r.port.Some? ==> ParseUnsigned(Cell(f, 2).value, 65536) == r.port)
              && r.group == Given(Cell(f, 3)) && r.domain == Given(Cell(f, 4))
  {
    if |f| > 3 { TrimIsIdempotent(f[3]); }
  }

  lemma {:induction false} ColonsOf(s: string)
    ensures Colons(s) == 0 <==> ':' !in s
  {
    if s != "" {
      ColonsOf(s[1..]);
      assert s == [s[0]] + s[1..];
    }
  }

  lemma {:induction false} ColonsAdd(s: string, t: string)
    ensures Colons(s + t) == Colons(s) + Colons(t)
  {
    if s == "" {
      assert s + t == t;
    } else {
      ColonsAdd(s[1..], t);
      assert (s + t)[1..] == s[1..] + t;
    }
  }

  /** A host with a port behind it is refused; an address with more colons is not for that. */
  lemma HostWithPortIsRefused(host: string, port: string)
    requires ':' !in host && ':' !in port
    ensures !GoodHost(host + ":" + port)
  {
    ColonsOf(host);
    ColonsOf(port);
    ColonsAdd(host, ":");
    ColonsAdd(host + ":", port);
    assert Colons(":") == 1 + Colons(":"[1..]) == 1;
  }
}
