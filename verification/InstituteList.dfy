/** One row per bank code in a pipe separated file: reading, rendering and the round trip. */
module InstituteList {
  import opened Wrappers
  import opened Text
  import opened Fields

  /** `raw` is the line an unchanged row was read from. */
  datatype Row = Row(
    blz: string, name: string, city: string, bic: string, check: string,
    domain: string, url: string, hbci: string, fints: string, raw: Option<string>)
  {
    function Columns(): seq<string> { [name, city, bic, check, domain, url, hbci, fints] }

    function Render(): string {
      if raw.Some? then raw.value else blz + ("=" + JoinWith(Columns() + [""], '|'))
    }
  }

  predicate SameFields(a: Row, b: Row) {
    a.(raw := None) == b.(raw := None)
  }

  predicate IsBlz(s: string) { |s| == 8 && All(s, IsDecimal) }

  /** The position of the first `=`, or the length of the line. */
  function Partition(line: string): (k: nat)
    ensures k <= |line|
  {
    Skip(line, 0, NotEquals)
  }

  function NotEquals(c: char): bool { c != '=' }

  function ParseLine(line: string): Option<Row> {
    var k := Partition(line);
    if Strip(line) == "" || line[0] == '#' || k == |line| then None
    else
      var blz, parts := Strip(line[..k]), SplitOn(line[k + 1..], '|');
      if !IsBlz(blz) || |parts| < 8 then None
      else Some(Row(blz, Strip(parts[0]), Strip(parts[1]), Strip(parts[2]), Strip(parts[3]),
                    Strip(parts[4]), Strip(parts[5]), Strip(parts[6]), Strip(parts[7]), Some(line)))
  }

  function ReadLines(lines: seq<string>): seq<Row> {
    if lines == [] then []
    else
      var rest := ReadLines(lines[1..]);
      match ParseLine(lines[0])
      case None => rest
      case Some(row) => [row] + rest
  }

  function ReadText(text: string): seq<Row> { ReadLines(SplitLines(text)) }

  function WriteText(rows: seq<Row>): string {
    if rows == [] then "" else rows[0].Render() + ("\n" + WriteText(rows[1..]))
  }

  method ReadList(text: string) returns (rows: seq<Row>)
    ensures rows == ReadText(text)
  {
    hide ParseLine, SplitLines;
    var lines := SplitLines(text);
    rows := [];
    for i := 0 to |lines|
      invariant rows + ReadLines(lines[i..]) == ReadText(text)
    {
      assert lines[i..][1..] == lines[i + 1..];
      var parsed := ParseLine(lines[i]);
      if parsed.Some? {
        assert rows + ([parsed.value] + ReadLines(lines[i + 1..])) == rows + [parsed.value] + ReadLines(lines[i + 1..]);
        rows := rows + [parsed.value];
      }
    }
  }

  // ----- clean fields

  /** What survives a field of the file: one trimmed line without the separator. */
  predicate IsField(s: string) {
    OneLine(s) && Without(s, '|') && IsTrimmed(s)
  }

  function Replace(s: string): string {
    seq(|s|, i requires 0 <= i < |s| => if s[i] == '|' then '/' else if s[i] == '=' then ' ' else s[i])
  }

  /** The cleaning of a DK cell, after control characters have been repaired. */
  function Clean(value: string): string {
    var words := Words(Replace(value));
    if words == [] then "" else JoinWith(words, ' ')
  }

  /** Cleaning yields a field for every cell, and no equals sign. */
  lemma CleanIsField(value: string)
    ensures IsField(Clean(value)) && Without(Clean(value), '=')
  {
    var replaced := Replace(value);
    var words := Words(replaced);
    if words != [] {
      forall w | w in words
        ensures IsOneWord(w) && forall k :: 0 <= k < |w| ==> w[k] in replaced
      {
        WordsAreWords(replaced, w);
      }
      JoinedWords(words);
    }
  }

  predicate AllFields(row: Row) {
    forall c :: c in row.Columns() ==> IsField(c)
  }

  // ----- one row

  lemma BlzPartition(blz: string, rest: string)
    requires IsBlz(blz)
    ensures Partition(blz + ("=" + rest)) == 8
  {
    var line := blz + ("=" + rest);
    assert At(line, 0, blz);
    forall k | 0 <= k < |blz|
      ensures NotEquals(blz[k])
    {
    }
    assert line[8] == '=';
    SkipAt(line, 0, blz, NotEquals);
  }

  lemma BlzIsTrimmed(s: string)
    requires IsBlz(s)
    ensures IsTrimmed(s) && OneLine(s) && s[0] != '#'
  {
  }

  lemma ParsedColumns(line: string, k: nat, blz: string, parts: seq<string>)
    requires k == Partition(line) < |line| && line[0] != '#' && Strip(line) != ""
    requires Strip(line[..k]) == blz && IsBlz(blz) && SplitOn(line[k + 1..], '|') == parts && |parts| == 9
    requires forall i :: 0 <= i < 8 ==> Strip(parts[i]) == parts[i]
    ensures ParseLine(line) == Some(Row(blz, parts[0], parts[1], parts[2], parts[3],
                                        parts[4], parts[5], parts[6], parts[7], Some(line)))
  {
    hide Partition, Strip, SplitOn, IsBlz;
  }

  lemma ColumnsComeApart(row: Row)
    requires AllFields(row)
    ensures SplitOn(JoinWith(row.Columns() + [""], '|'), '|') == row.Columns() + [""]
    ensures forall i :: 0 <= i < 8 ==> Strip(row.Columns()[i]) == row.Columns()[i]
  {
    var columns := row.Columns();
    forall p | p in columns + [""]
      ensures Without(p, '|')
    {
    }
    SplitUndoesJoin(columns + [""], '|');
    forall i | 0 <= i < 8
      ensures Strip(columns[i]) == columns[i]
    {
      assert columns[i] in columns;
      StripOfTrimmed(columns[i]);
    }
  }

  lemma RenderedStart(row: Row)
    requires row.raw.None? && IsBlz(row.blz)
    ensures
      var line := row.Render();
      && Partition(line) == 8 < |line| && line[0] != '#' && Strip(line) != "" && Strip(line[..8]) == row.blz
      && line[9..] == JoinWith(row.Columns() + [""], '|')
  {
    var line, rest := row.Render(), JoinWith(row.Columns() + [""], '|');
    hide JoinWith, Strip, Partition;
    BlzPartition(row.blz, rest);
    BlzIsTrimmed(row.blz);
    assert line[0] == row.blz[0] && line[..8] == row.blz && line[9..] == rest;
    NotBlank(line);
    StripOfTrimmed(row.blz);
  }

  /** A row without its line is rendered and parsed back field by field. */
  lemma RenderedRowIsParsed(row: Row)
    requires row.raw.None? && IsBlz(row.blz) && AllFields(row)
    ensures ParseLine(row.Render()) == Some(row.(raw := Some(row.Render())))
  {
    hide Partition, Strip, SplitOn, IsBlz, JoinWith, ParseLine, AllFields, Row.Render;
    RenderedStart(row);
    ColumnsComeApart(row);
    ParsedColumns(row.Render(), 8, row.blz, row.Columns() + [""]);
  }

  lemma RenderedRowIsOneLine(row: Row)
    requires row.raw.None? && IsBlz(row.blz) && AllFields(row)
    ensures OneLine(row.Render())
  {
    BlzIsTrimmed(row.blz);
    forall p | p in row.Columns() + [""]
      ensures OneLine(p)
    {
    }
    JoinIsOneLine(row.Columns() + [""], '|');
  }

  /** Every row the reader returns has fields, a bank code and the line it came from. */
  lemma ParsedRowHasFields(line: string)
    requires OneLine(line) && ParseLine(line).Some?
    ensures
      var row := ParseLine(line).value;
      IsBlz(row.blz) && AllFields(row) && row.raw == Some(line)
  {
    var rest := line[Partition(line) + 1..];
    var parts := SplitOn(rest, '|');
    forall p | p in parts
      ensures IsField(Strip(p))
    {
      SplitPartsAreFree(rest, '|', p);
      StripIsTrimmed(p);
    }
  }

  // ----- whole files

  /** Rows that come back from the file: read from a line before, or new with fields throughout. */
  predicate IsWritable(row: Row) {
    IsBlz(row.blz) && AllFields(row)
    && (row.raw.Some? ==> OneLine(row.raw.value) && ParseLine(row.raw.value) == Some(row))
  }

  function AsRead(rows: seq<Row>): seq<Row> {
    seq(|rows|, i requires 0 <= i < |rows| => rows[i].(raw := Some(rows[i].Render())))
  }

  lemma {:induction false} ReadRowsAreWritable(text: string)
    ensures forall r :: r in ReadText(text) ==> IsWritable(r) && r.raw.Some?
  {
    forall line | line in SplitLines(text)
      ensures OneLine(line)
    {
      SplitLinesAreLines(text, line);
    }
    ReadLinesAreWritable(SplitLines(text));
  }

  lemma {:induction false} ReadLinesAreWritable(lines: seq<string>)
    requires forall line :: line in lines ==> OneLine(line)
    ensures forall r :: r in ReadLines(lines) ==> IsWritable(r) && r.raw.Some?
    decreases |lines|
  {
    if lines != [] {
      ReadLinesAreWritable(lines[1..]);
      if ParseLine(lines[0]).Some? {
        ParsedRowHasFields(lines[0]);
      }
    }
  }

  lemma WritableRowIsParsed(row: Row)
    requires IsWritable(row)
    ensures OneLine(row.Render()) && ParseLine(row.Render()) == Some(row.(raw := Some(row.Render())))
  {
    if row.raw.None? {
      RenderedRowIsParsed(row);
      RenderedRowIsOneLine(row);
    }
  }

  lemma ReadFirst(line: string, rest: string)
    requires OneLine(line) && ParseLine(line).Some?
    ensures ReadText(line + ("\n" + rest)) == [ParseLine(line).value] + ReadText(rest)
  {
    hide ParseLine;
    FirstLine(line, rest);
  }

  /** Writing rows and reading the file gives the same rows in the same order; a row that was
      read before comes back as the identical line. */
  lemma {:induction false} WrittenRowsAreReadBack(rows: seq<Row>)
    requires forall r :: r in rows ==> IsWritable(r)
    ensures ReadText(WriteText(rows)) == AsRead(rows)
    decreases |rows|
  {
    hide IsWritable, ParseLine, ReadText;
    if rows == [] {
      assert ReadText("") == [] by { NothingRead(); }
    } else {
      assert rows[0] in rows;
      WrittenRowsAreReadBack(rows[1..]);
      WritableRowIsParsed(rows[0]);
      ReadFirst(rows[0].Render(), WriteText(rows[1..]));
    }
  }

  lemma NothingRead()
    ensures ReadText("") == []
  {
  }

  lemma ReadBackHasFields(row: Row, r: Row)
    requires ReadText(WriteText([row])) == [r] && SameFields(r, row)
    ensures AllFields(row)
  {
    ReadRowsAreWritable(WriteText([row]));
    assert r in [r];
    assert r.Columns() == row.Columns();
  }

  /** A new row comes back from the file if and only if every one of its columns is a field. */
  lemma NewRowRoundTripIff(row: Row)
    requires row.raw.None? && IsBlz(row.blz)
    ensures (exists r :: ReadText(WriteText([row])) == [r] && SameFields(r, row)) <==> AllFields(row)
  {
    if AllFields(row) {
      WrittenRowsAreReadBack([row]);
      assert AsRead([row]) == [AsRead([row])[0]];
    }
    forall r | ReadText(WriteText([row])) == [r] && SameFields(r, row)
      ensures AllFields(row)
    {
      ReadBackHasFields(row, r);
    }
  }
}
