/** One line of comma-separated fields (`csv_fields` in `admin.rs`), quoted as in section 2 of RFC 4180. */
module Csv {
  import opened Common
  import opened Text

  // ---- the code -----------------------------------------------------------------------------------

  function Trims(fields: seq<string>): (r: seq<string>)
    ensures |r| == |fields| && forall i | 0 <= i < |r| :: r[i] == Trim(fields[i])
  {
    if fields == [] then [] else Trims(fields[..|fields| - 1]) + [Trim(fields[|fields| - 1])]
  }

  /** What the scanner makes of the rest of a line: `None` for a quote that never ends. */
  function Scan(line: string, fields: seq<string>, cur: string, quoted: bool): Option<seq<string>>
    decreases |line|
  {
    if line == "" then (if quoted then None else Some(Trims(fields + [cur])))
    else
      var c, rest := line[0], line[1..];
      if c == '"' && quoted then
        if rest != "" && rest[0] == '"' then Scan(rest[1..], fields, cur + "\"", true)
        else Scan(rest, fields, cur, false)
      else if c == '"' && Trim(cur) == "" then Scan(rest, fields, "", true)
      else if c == ',' && !quoted then Scan(rest, fields + [cur], "", false)
      else Scan(rest, fields, cur + [c], quoted)
  }

  function Fields(line: string): Option<seq<string>> { Scan(line, [], "", false) }

  method CsvFields(line: string) returns (r: Option<seq<string>>)
    ensures r == Fields(line)
  {
    var fields: seq<string>, cur, quoted := [], "", false;
    var i := 0;
    while i < |line|
      invariant 0 <= i <= |line|
      invariant Scan(line[i..], fields, cur, quoted) == Fields(line)
    {
      var c := line[i];
      assert line[i..][1..] == line[i + 1..];
      i := i + 1;
      if c == '"' && quoted {
        if i < |line| && line[i] == '"' {
          assert line[i..][1..] == line[i + 1..];
          cur := cur + "\"";
          i := i + 1;
        } else {
          quoted := false;
        }
      } else if c == '"' && Trim(cur) == "" {
        cur, quoted := "", true;
      } else if c == ',' && !quoted {
        fields, cur := fields + [cur], "";
      } else {
        cur := cur + [c];
      }
    }
    assert line[i..] == "";
    if quoted { return None; }
    fields := fields + [cur];
    return Some(Trims(fields));
  }

  // ---- writing a field ----------------------------------------------------------------------------

  /** Every quote twice. */
  function Doubled(f: string): string {
    if f == "" then "" else (if f[0] == '"' then "\"\"" else [f[0]]) + Doubled(f[1..])
  }

  function Quote(f: string): string { "\"" + Doubled(f) + "\"" }

  /** A text that writes a field: the field itself where it holds no comma and no quote, or the field quoted,
      with any space around the quotes. */
  datatype Cell = Plain(field: string) | Quoted(before: string, field: string, behind: string)

  predicate Writes(c: Cell) {
    match c
    case Plain(f) => ',' !in f && '"' !in f
    case Quoted(before, _, behind) => Spaces(before) && Spaces(behind)
  }

  function Written(c: Cell): string {
    match c
    case Plain(f) => f
    case Quoted(before, f, behind) => before + Quote(f) + behind
  }

  function Texts(cells: seq<Cell>): (r: seq<string>)
    ensures |r| == |cells| && forall i | 0 <= i < |r| :: r[i] == Written(cells[i])
  {
    if cells == [] then [] else [Written(cells[0])] + Texts(cells[1..])
  }

  function Contents(cells: seq<Cell>): (r: seq<string>)
    ensures |r| == |cells| && forall i | 0 <= i < |r| :: r[i] == Trim(cells[i].field)
  {
    if cells == [] then [] else [Trim(cells[0].field)] + Contents(cells[1..])
  }

  // ---- reading it back ----------------------------------------------------------------------------

  lemma {:induction false} ScanPlain(text: string, rest: string, fields: seq<string>, cur: string)
    requires ',' !in text && '"' !in text
    ensures Scan(text + rest, fields, cur, false) == Scan(rest, fields, cur + text, false)
    decreases |text|
  {
    if text == "" {
      assert text + rest == rest && cur + text == cur;
    } else {
      assert (text + rest)[1..] == text[1..] + rest;
      ScanPlain(text[1..], rest, fields, cur + [text[0]]);
      assert cur + [text[0]] + text[1..] == cur + text;
    }
  }

  lemma {:induction false} ScanQuoted(f: string, rest: string, fields: seq<string>, cur: string)
    requires rest == "" || rest[0] != '"'
    ensures Scan(Doubled(f) + "\"" + rest, fields, cur, true) == Scan(rest, fields, cur + f, false)
    decreases |f|
  {
    var line := Doubled(f) + "\"" + rest;
    if f == "" {
      assert line[1..] == rest && cur + f == cur;
    } else {
      var next := Doubled(f[1..]) + "\"" + rest;
      ScanQuoted(f[1..], rest, fields, cur + [f[0]]);
      assert cur + [f[0]] + f[1..] == cur + f;
      if f[0] == '"' {
        assert line == "\"\"" + next;
        assert line[1..] == "\"" + next && line[1..][1..] == next;
      } else {
        assert line == [f[0]] + next;
        assert line[1..] == next;
      }
    }
  }

  lemma SpacesArePlain(w: string)
    requires Spaces(w)
    ensures ',' !in w && '"' !in w
  {
  }

  /** However a field is written, the scanner arrives behind it with the field, up to space. */
  lemma ScanCell(c: Cell, rest: string, fields: seq<string>) returns (cur: string)
    requires Writes(c) && (rest == "" || rest[0] == ',')
    ensures Trim(cur) == Trim(c.field)
    ensures Scan(Written(c) + rest, fields, "", false) == Scan(rest, fields, cur, false)
  {
    match c
    case Plain(f) =>
      ScanPlain(f, rest, fields, "");
      cur := f;
      assert "" + f == f;
    case Quoted(before, f, behind) =>
      SpacesArePlain(before);
      SpacesArePlain(behind);
      var quote := Quote(f) + (behind + rest);
      assert Written(c) + rest == before + quote;
      ScanPlain(before, quote, fields, "");
      assert "" + before == before;
      ScanQuote(before, f, behind + rest, fields);
      ScanPlain(behind, rest, fields, f);
      cur := f + behind;
      TrimAppend(f, behind);
  }

  /** Behind nothing but space a quote starts the field over. */
  lemma ScanQuote(before: string, f: string, tail: string, fields: seq<string>)
    requires Spaces(before) && (tail == "" || tail[0] != '"')
    ensures Scan(Quote(f) + tail, fields, before, false) == Scan(tail, fields, f, false)
  {
    TrimSpaces(before);
    var quote := Quote(f) + tail;
    assert quote[1..] == Doubled(f) + "\"" + tail;
    ScanQuoted(f, tail, fields, "");
    assert "" + f == f;
  }

  lemma {:induction false} ScanCells(cells: seq<Cell>, fields: seq<string>)
    requires |cells| >= 1 && forall i | 0 <= i < |cells| :: Writes(cells[i])
    ensures Scan(Join(Texts(cells), ','), fields, "", false) == Some(Trims(fields) + Contents(cells))
    decreases |cells|
  {
    var texts := Texts(cells);
    if |cells| == 1 {
      var cur := ScanCell(cells[0], "", fields);
      assert Written(cells[0]) + "" == Join(texts, ',');
      assert Trims(fields + [cur]) == Trims(fields) + Contents(cells);
    } else {
      var rest := "," + Join(texts[1..], ',');
      var cur := ScanCell(cells[0], rest, fields);
      assert Join(texts, ',') == Written(cells[0]) + rest;
      assert rest[1..] == Join(texts[1..], ',');
      assert texts[1..] == Texts(cells[1..]);
      ScanCells(cells[1..], fields + [cur]);
      assert Trims(fields + [cur]) + Contents(cells[1..]) == Trims(fields) + Contents(cells);
    }
  }

  /** Any way of writing at least one field reads back as the trimmed fields. */
  lemma FieldsRoundTrip(cells: seq<Cell>)
    requires |cells| >= 1 && forall i | 0 <= i < |cells| :: Writes(cells[i])
    ensures Fields(Join(Texts(cells), ',')) == Some(Contents(cells))
  {
    ScanCells(cells, []);
    assert Trims([]) + Contents(cells) == Contents(cells);
  }
}
