/** Documents as block lists, their printed lines, and the parser on printed documents. */
module HandbookDocuments {
  import opened Wrappers
  import opened Text
  import opened Fields
  import opened Handbook

  function Repeat(c: char, n: nat): (s: string)
    ensures |s| == n && forall k :: 0 <= k < n ==> s[k] == c
  {
    seq(n, _ => c)
  }

  function ItemLine(ordered: bool, item: Item): string {
    Repeat(' ', 2 * item.depth) + ((if ordered then "1." else "-") + (" " + item.text))
  }

  function ItemLines(ordered: bool, items: seq<Item>): seq<string> {
    seq(|items|, i requires 0 <= i < |items| => ItemLine(ordered, items[i]))
  }

  function Pad(cell: string): string { " " + (cell + " ") }

  function RowLine(cells: seq<string>): string
    requires cells != []
  {
    "|" + (JoinWith(Map(cells, Pad), '|') + "|")
  }

  function RowLines(rows: seq<seq<string>>): seq<string>
    requires forall r :: r in rows ==> r != []
  {
    seq(|rows|, i requires 0 <= i < |rows| => assert rows[i] in rows; RowLine(rows[i]))
  }

  function PrintBlock(b: Block): seq<string>
    requires IsDocBlock(b)
  {
    match b
    case Code(text) => ["```"] + (SplitOn(text, '\n') + ["```"])
    case Heading(level, text) => [Repeat('#', level) + (" " + text)]
    case Table(head, rows) => [RowLine(head), "|-|"] + RowLines(rows)
    case Quote(text) => ["> " + text]
    case Items(ordered, items) => ItemLines(ordered, items)
    case Paragraph(text) => [text]
  }

  /** Every block is followed by a blank line. */
  function Print(blocks: seq<Block>): seq<string>
    requires forall b :: b in blocks ==> IsDocBlock(b)
  {
    if blocks == [] then []
    else
      assert blocks[0] in blocks;
      PrintBlock(blocks[0]) + ([""] + Print(blocks[1..]))
  }

  function WriteLines(lines: seq<string>): string {
    if lines == [] then "" else lines[0] + ("\n" + WriteLines(lines[1..]))
  }

  // ----- which blocks are printed

  predicate IsText(s: string) { IsTrimmed(s) && OneLine(s) }

  predicate IsRow(cells: seq<string>) {
    cells != [] && forall c :: c in cells ==> IsText(c) && Without(c, '|')
  }

  predicate IsDocBlock(b: Block) {
    match b
    case Code(text) => forall line :: line in SplitOn(text, '\n') ==> NoFence(line) && OneLine(line)
    case Heading(level, text) => 1 <= level <= 6 && IsText(text)
    case Table(head, rows) => IsRow(head) && forall r :: r in rows ==> IsRow(r)
    case Quote(text) => IsText(text)
    case Items(_, items) => items != [] && forall it :: it in items ==> it.depth <= 3 && IsText(it.text)
    case Paragraph(text) => IsText(text) && text != "" && !StartsBlock(text) && MatchItem(text).None?
  }

  // ----- trimming printed text

  lemma StripAfterBlank(text: string)
    requires IsTrimmed(text)
    ensures Strip(" " + text) == text
  {
    assert (" " + text)[1..] == text;
    assert StripLeft(" " + text) == StripLeft(text) == text;
    StripOfTrimmed(text);
  }

  lemma StripOfPadded(text: string)
    requires IsTrimmed(text)
    ensures Strip(Pad(text)) == text
  {
    var s := Pad(text);
    assert s[1..] == text + " ";
    if text == "" {
      assert text + " " == " " && " "[1..] == "";
      assert StripLeft(" ") == "" && StripLeft(s) == StripLeft(" ");
    } else {
      assert StripLeft(s) == StripLeft(text + " ") == text + " ";
      assert (text + " ")[..|text|] == text;
      assert StripRight(text + " ") == StripRight(text) == text;
    }
  }

  lemma PadKeeps(cell: string)
    ensures Without(cell, '|') ==> Without(Pad(cell), '|')
    ensures OneLine(cell) ==> OneLine(Pad(cell))
    ensures Pad(cell) != "" && Pad(cell)[0] == ' ' && Pad(cell)[|Pad(cell)| - 1] == ' '
  {
  }

  // ----- single lines

  lemma HeadingLine(level: nat, text: string)
    requires 1 <= level <= 6 && IsText(text)
    ensures
      var line := Repeat('#', level) + (" " + text);
      && !IsBlank(line) && !IsFence(line) && IsHeading(line)
      && HashCount(line) == level && Strip(line[level..]) == text
  {
    var line := Repeat('#', level) + (" " + text);
    assert At(line, 0, Repeat('#', level));
    SkipAt(line, 0, Repeat('#', level), IsHash);
    assert line[level..] == " " + text;
    NotBlank(line);
    StripAfterBlank(text);
  }

  /** A line whose first character is none of the special ones starts neither heading, fence nor quote. */
  lemma OtherStart(line: string)
    requires line != "" && line[0] != '#' && line[0] != '`' && line[0] != '>'
    ensures !IsHeading(line) && !IsFence(line) && !IsQuote(line)
  {
  }

  lemma QuoteLine(text: string)
    requires IsText(text)
    ensures
      var line := "> " + text;
      && !IsBlank(line) && !IsFence(line) && !IsHeading(line) && !IsPipe(line) && IsQuote(line)
      && QuoteText(line) == text
  {
    var line := "> " + text;
    NotBlank(line);
    assert line[1..] == " " + text;
    assert StripLeftOf(line, '>') == " " + text;
    StripAfterBlank(text);
  }

  lemma Ruler()
    ensures IsRuler("|-|")
  {
  }

  lemma {:induction false} JoinedEdges(parts: seq<string>)
    requires parts != [] && forall p :: p in parts ==> p != "" && p[0] == ' ' && p[|p| - 1] == ' '
    ensures
      var s := JoinWith(parts, '|');
      s != "" && s[0] == ' ' && s[|s| - 1] == ' '
    decreases |parts|
  {
    assert parts[0] in parts;
    if |parts| > 1 {
      JoinedEdges(parts[1..]);
    }
  }

  lemma PipesOff(s: string)
    requires s != "" && s[0] != '|' && s[|s| - 1] != '|'
    ensures StripRightOf(StripLeftOf("|" + (s + "|"), '|'), '|') == s
  {
  }

  lemma RowLineCells(cells: seq<string>)
    requires IsRow(cells)
    ensures Cells(RowLine(cells)) == cells
  {
    var padded := Map(cells, Pad);
    forall p | p in padded
      ensures p != "" && p[0] == ' ' && p[|p| - 1] == ' ' && Without(p, '|')
    {
      var k :| 0 <= k < |cells| && padded[k] == p;
      assert cells[k] in cells;
      PadKeeps(cells[k]);
    }
    JoinedEdges(padded);
    StripOfTrimmed(RowLine(cells));
    PipesOff(JoinWith(padded, '|'));
    SplitUndoesJoin(padded, '|');
    CellsOfPadded(cells);
  }

  lemma CellsOfPadded(cells: seq<string>)
    requires forall c :: c in cells ==> IsTrimmed(c)
    ensures Map(Map(cells, Pad), Strip) == cells
  {
    hide Pad, Strip;
    forall k | 0 <= k < |cells|
      ensures Map(Map(cells, Pad), Strip)[k] == cells[k]
    {
      assert cells[k] in cells;
      StripOfPadded(cells[k]);
    }
  }

  lemma ItemLineParts(ordered: bool, item: Item)
    requires item.depth <= 3 && IsText(item.text)
    ensures
      var line := ItemLine(ordered, item);
      var indent := 2 * item.depth;
      var end := indent + (if ordered then 2 else 1);
      && Skip(line, 0, IsSpace) == indent < |line| && line[indent] == (if ordered then '1' else '-')
      && MarkerEnd(line, indent) == end < |line| && line[end] == ' ' && line[end + 1..] == item.text
  {
    var line := ItemLine(ordered, item);
    var indent := 2 * item.depth;
    var blanks := Repeat(' ', indent);
    assert At(line, 0, blanks);
    SkipAt(line, 0, blanks, IsSpace);
    if ordered {
      assert line[indent] == '1' && line[indent + 1] == '.';
      assert Skip(line, indent, IsDecimal) == indent + 1;
    }
  }

  lemma ItemLineMatches(ordered: bool, item: Item)
    requires item.depth <= 3 && IsText(item.text)
    ensures MatchItem(ItemLine(ordered, item)) == Some(item)
    ensures IsOrdered(ItemLine(ordered, item)) <==> ordered
  {
    hide MatchItem, IsOrdered, ItemLine, MarkerEnd, Skip;
    ItemLineParts(ordered, item);
    var end := 2 * item.depth + (if ordered then 2 else 1);
    MatchItemParts(ItemLine(ordered, item), 2 * item.depth, end, item.text);
    OrderedParts(ItemLine(ordered, item), 2 * item.depth, end);
  }

  lemma OrderedParts(line: string, indent: nat, end: nat)
    requires Skip(line, 0, IsSpace) == indent < |line| && MarkerEnd(line, indent) == end > indent
    ensures IsOrdered(line) <==> line[indent] != '-' && line[indent] != '*'
  {
  }

  lemma MatchItemParts(line: string, indent: nat, end: nat, text: string)
    requires Skip(line, 0, IsSpace) == indent && MarkerEnd(line, indent) == end && indent < end < |line|
    requires line[end] == ' ' && line[end + 1..] == text && IsTrimmed(text) && indent <= 6
    ensures MatchItem(line) == Some(Item(indent / 2, text))
  {
    assert Skip(line, end + 1, IsSpace) == end + 1 by {
      if text != "" {
        assert line[end + 1] == text[0];
      }
    }
    StripOfTrimmed(text);
  }

  lemma {:induction false} StripLeftIsSkip(s: string, i: nat)
    requires i <= |s| && Skip(s, 0, IsSpace) == i
    ensures StripLeft(s) == s[i..]
    decreases |s|
  {
    if s != "" && IsSpace(s[0]) {
      SkipTail(s, 0);
      StripLeftIsSkip(s[1..], i - 1);
    }
  }

  lemma {:induction false} SkipTail(s: string, i: nat)
    requires i < |s| && IsSpace(s[0])
    ensures Skip(s, i + 1, IsSpace) == Skip(s[1..], i, IsSpace) + 1
    ensures i == 0 ==> Skip(s, 0, IsSpace) == Skip(s[1..], 0, IsSpace) + 1
    decreases |s| - i
  {
    if i + 1 < |s| {
      assert s[i + 1] == s[1..][i];
      if IsSpace(s[i + 1]) {
        SkipTail(s, i + 1);
      }
    }
  }

  lemma ItemLineStartsNothingElse(ordered: bool, item: Item)
    requires item.depth <= 3 && IsText(item.text)
    ensures
      var line := ItemLine(ordered, item);
      !IsBlank(line) && !IsFence(line) && !IsHeading(line) && !IsPipe(line) && !IsQuote(line)
  {
    var line := ItemLine(ordered, item);
    ItemLineParts(ordered, item);
    StripLeftIsSkip(line, 2 * item.depth);
    assert StripLeft(line)[0] == line[2 * item.depth];
    StripRightKeepsFirst(StripLeft(line));
    assert line[0] == ' ' || line[0] == '1' || line[0] == '-';
    OtherStart(line);
  }

  lemma BlankLine()
    ensures IsBlank("") && !IsPipe("") && !IsQuote("") && !IsParagraphLine("") && MatchItem("").None?
  {
  }

  // ----- single blocks

  lemma FencedAt(lines: seq<string>, i: nat, body: seq<string>)
    requires At(lines, i, ["```"] + (body + ["```"]) + [""])
    ensures
      var close := i + 1 + |body|;
      && close < |lines| && lines[i] == "```" && lines[close] == "```"
      && At(lines, i + 1, body) && lines[i + 1..close] == body
  {
    AtBoth(lines, i, ["```"] + (body + ["```"]), [""]);
    AtBoth(lines, i, ["```"], body + ["```"]);
    AtBoth(lines, i + 1, body, ["```"]);
    assert lines[i + 0] == ["```"][0] && lines[i + 1 + |body| + 0] == ["```"][0];
    AtSlice(lines, i + 1, body);
  }

  lemma NextFence(lines: seq<string>, i: nat, close: nat)
    requires i < |lines| && lines[i] == "```" && Skip(lines, i + 1, NoFence) == close
    ensures Next(lines, i) == Step(Some(Code(Joined(lines[i + 1..close], '\n'))), close + 1)
  {
  }

  lemma NextCode(lines: seq<string>, i: nat, text: string)
    requires IsDocBlock(Code(text)) && At(lines, i, PrintBlock(Code(text)) + [""])
    ensures Next(lines, i) == Step(Some(Code(text)), i + |PrintBlock(Code(text))|)
  {
    hide SplitOn, JoinWith, Next, NoFence;
    NextFenced(lines, i, SplitOn(text, '\n'));
    JoinUndoesSplit(text, '\n');
  }

  lemma NextFenced(lines: seq<string>, i: nat, body: seq<string>)
    requires At(lines, i, ["```"] + (body + ["```"]) + [""]) && All(body, NoFence)
    ensures Next(lines, i) == Step(Some(Code(Joined(body, '\n'))), i + |body| + 2)
  {
    hide Next, Joined;
    FencedAt(lines, i, body);
    SkipAt(lines, i + 1, body, NoFence);
    NextFence(lines, i, i + 1 + |body|);
  }

  lemma NextHeading(lines: seq<string>, i: nat, level: nat, text: string)
    requires IsDocBlock(Heading(level, text)) && At(lines, i, PrintBlock(Heading(level, text)) + [""])
    ensures Next(lines, i) == Step(Some(Heading(level, text)), i + 1)
  {
    var shown := PrintBlock(Heading(level, text)) + [""];
    assert lines[i + 0] == shown[0];
    HeadingLine(level, text);
  }

  lemma NextQuote(lines: seq<string>, i: nat, text: string)
    requires IsDocBlock(Quote(text)) && At(lines, i, ["> " + text] + [""])
    ensures Next(lines, i) == Step(Some(Quote(text)), i + 1)
  {
    hide IsHeading, IsRuler, MatchItem, IsPipe, QuoteText;
    var shown := ["> " + text] + [""];
    assert lines[i + 0] == shown[0] && lines[i + 1] == shown[1];
    QuoteLine(text);
    assert Skip(lines, i + 1, IsQuote) == i + 1;
    assert lines[i..i + 1] == ["> " + text];
    assert Map(["> " + text], QuoteText) == [text];
  }

  lemma NextParagraph(lines: seq<string>, i: nat, text: string)
    requires IsDocBlock(Paragraph(text)) && At(lines, i, [text] + [""])
    ensures Next(lines, i) == Step(Some(Paragraph(text)), i + 1)
  {
    hide IsHeading, IsRuler, MatchItem, IsPipe;
    var shown := [text] + [""];
    assert lines[i + 0] == shown[0] && lines[i + 1] == shown[1];
    StripOfTrimmed(text);
    BlankLine();
    assert Skip(lines, i + 1, IsParagraphLine) == i + 1;
    assert lines[i..i + 1] == [text];
    assert Map([text], Strip) == [text];
  }

  lemma {:induction false} ListOver(lines: seq<string>, i: nat, ordered: bool, items: seq<Item>, before: seq<Item>)
    requires forall it :: it in items ==> it.depth <= 3 && IsText(it.text)
    requires At(lines, i, ItemLines(ordered, items) + [""])
    ensures ListFrom(lines, i, before) == Listed(before + items, i + |items|)
    decreases |items|
  {
    hide MatchItem;
    var shown := ItemLines(ordered, items) + [""];
    assert lines[i + 0] == shown[0];
    if items == [] {
      BlankLine();
    } else {
      assert items[0] in items;
      ItemLineMatches(ordered, items[0]);
      var rest := ItemLines(ordered, items[1..]) + [""];
      forall k | 0 <= k < |rest|
        ensures lines[i + 1 + k] == rest[k]
      {
        assert lines[i + (k + 1)] == shown[k + 1];
      }
      ListOver(lines, i + 1, ordered, items[1..], before + [items[0]]);
      assert before + [items[0]] + items[1..] == before + items;
    }
  }

  lemma NextItems(lines: seq<string>, i: nat, ordered: bool, items: seq<Item>)
    requires IsDocBlock(Items(ordered, items)) && At(lines, i, ItemLines(ordered, items) + [""])
    ensures Next(lines, i) == Step(Some(Items(ordered, items)), i + |items|)
  {
    hide IsHeading, IsRuler, MatchItem, IsPipe, IsOrdered;
    var shown := ItemLines(ordered, items) + [""];
    assert lines[i + 0] == shown[0];
    assert items[0] in items;
    ItemLineMatches(ordered, items[0]);
    ItemLineStartsNothingElse(ordered, items[0]);
    ListOver(lines, i, ordered, items, []);
    assert [] + items == items;
  }

  lemma NextTable(lines: seq<string>, i: nat, head: seq<string>, rows: seq<seq<string>>)
    requires IsDocBlock(Table(head, rows)) && At(lines, i, [RowLine(head), "|-|"] + RowLines(rows) + [""])
    ensures Next(lines, i) == Step(Some(Table(head, rows)), i + 2 + |rows|)
  {
    hide IsHeading, IsRuler, MatchItem, IsPipe, Cells, RowLine;
    var top, below := [RowLine(head), "|-|"], RowLines(rows);
    AtBoth(lines, i, top + below, [""]);
    AtBoth(lines, i, top, below);
    assert lines[i + 0] == top[0] && lines[i + 1] == top[1];
    assert lines[i + |top + below| + 0] == [""][0];
    RowLineIsPipe(head);
    Ruler();
    BlankLine();
    forall k | 0 <= k < |rows|
      ensures IsPipe(below[k]) && Cells(below[k]) == rows[k]
    {
      assert rows[k] in rows;
      RowLineIsPipe(rows[k]);
      RowLineCells(rows[k]);
    }
    SkipAt(lines, i + 2, below, IsPipe);
    AtSlice(lines, i + 2, below);
    assert AllCells(below) == rows;
    RowLineCells(head);
  }

  lemma RowLineIsPipe(cells: seq<string>)
    requires cells != []
    ensures var line := RowLine(cells); !IsBlank(line) && !IsFence(line) && !IsHeading(line) && IsPipe(line)
  {
  }

  lemma NextBlock(lines: seq<string>, i: nat, b: Block)
    requires IsDocBlock(b) && At(lines, i, PrintBlock(b) + [""])
    ensures Next(lines, i) == Step(Some(b), i + |PrintBlock(b)|)
  {
    hide Next;
    match b
    case Code(text) => NextCode(lines, i, text);
    case Heading(level, text) => NextHeading(lines, i, level, text);
    case Table(head, rows) => NextTable(lines, i, head, rows);
    case Quote(text) => NextQuote(lines, i, text);
    case Items(ordered, items) => NextItems(lines, i, ordered, items);
    case Paragraph(text) => NextParagraph(lines, i, text);
  }

  // ----- whole documents

  lemma BlockIsThere(lines: seq<string>, i: nat, printed: seq<string>, rest: seq<string>)
    requires At(lines, i, printed + ([""] + rest))
    ensures At(lines, i, printed) && i + |printed| < |lines| && lines[i + |printed|] == ""
    ensures At(lines, i + |printed| + 1, rest)
  {
    AtBoth(lines, i, printed, [""] + rest);
    AtTail(lines, i + |printed|, [""] + rest);
    assert ([""] + rest)[1..] == rest;
  }

  lemma {:induction false} PrintedLinesAreParsed(lines: seq<string>, i: nat, blocks: seq<Block>)
    requires forall b :: b in blocks ==> IsDocBlock(b)
    requires At(lines, i, Print(blocks)) && |lines| == i + |Print(blocks)|
    ensures ParseFrom(lines, i) == blocks
    decreases |blocks|
  {
    hide Next, IsDocBlock, PrintBlock;
    if blocks != [] {
      var b, rest := blocks[0], Print(blocks[1..]);
      assert b in blocks;
      var printed := PrintBlock(b);
      BlockIsThere(lines, i, printed, rest);
      NextBlock(lines, i, b);
      BlankStep(lines, i + |printed|);
      PrintedLinesAreParsed(lines, i + |printed| + 1, blocks[1..]);
      assert ParseFrom(lines, i + |printed|) == ParseFrom(lines, i + |printed| + 1);
    }
  }

  lemma {:induction false} WrittenLines(lines: seq<string>)
    requires forall line :: line in lines ==> OneLine(line)
    ensures SplitLines(WriteLines(lines)) == lines
    decreases |lines|
  {
    if lines != [] {
      assert lines[0] in lines;
      WrittenLines(lines[1..]);
      FirstLine(lines[0], WriteLines(lines[1..]));
    }
  }

  lemma RowLineIsOneLine(cells: seq<string>)
    requires IsRow(cells)
    ensures OneLine(RowLine(cells))
  {
    forall p | p in Map(cells, Pad)
      ensures OneLine(p)
    {
      var k :| 0 <= k < |cells| && Map(cells, Pad)[k] == p;
      assert cells[k] in cells;
      PadKeeps(cells[k]);
    }
    JoinIsOneLine(Map(cells, Pad), '|');
  }

  lemma JoinedTextIsOneLine(a: string, b: string)
    requires OneLine(a) && OneLine(b)
    ensures OneLine(a + b)
  {
  }

  lemma ItemLineIsOneLine(ordered: bool, item: Item)
    requires OneLine(item.text)
    ensures OneLine(ItemLine(ordered, item))
  {
  }

  lemma TableLinesAreLines(head: seq<string>, rows: seq<seq<string>>, line: string)
    requires IsDocBlock(Table(head, rows)) && line in PrintBlock(Table(head, rows))
    ensures OneLine(line)
  {
    hide RowLine;
    if line == RowLine(head) {
      RowLineIsOneLine(head);
    } else if line != "|-|" {
      assert line in RowLines(rows);
      var k :| 0 <= k < |rows| && RowLines(rows)[k] == line;
      assert rows[k] in rows;
      RowLineIsOneLine(rows[k]);
    }
  }

  lemma BlockLinesAreLines(b: Block, line: string)
    requires IsDocBlock(b) && line in PrintBlock(b)
    ensures OneLine(line)
  {
    hide RowLine, ItemLine;
    match b
    case Code(text) => assert line == "```" || line in SplitOn(text, '\n');
    case Heading(level, text) =>
      JoinedTextIsOneLine(" ", text);
      JoinedTextIsOneLine(Repeat('#', level), " " + text);
    case Table(head, rows) => TableLinesAreLines(head, rows, line);
    case Quote(text) => JoinedTextIsOneLine("> ", text);
    case Items(ordered, items) =>
      var k :| 0 <= k < |items| && ItemLines(ordered, items)[k] == line;
      assert items[k] in items;
      ItemLineIsOneLine(ordered, items[k]);
    case Paragraph(text) =>
  }

  lemma {:induction false} PrintedLinesAreLines(blocks: seq<Block>, line: string)
    requires forall b :: b in blocks ==> IsDocBlock(b)
    requires line in Print(blocks)
    ensures OneLine(line)
    decreases |blocks|
  {
    hide IsDocBlock, PrintBlock;
    assert blocks[0] in blocks;
    if line in PrintBlock(blocks[0]) {
      BlockLinesAreLines(blocks[0], line);
    } else if line in Print(blocks[1..]) {
      PrintedLinesAreLines(blocks[1..], line);
    }
  }

  /** Parsing undoes printing: the text of a document parses to exactly its blocks. */
  lemma ParseUndoesPrint(blocks: seq<Block>)
    requires forall b :: b in blocks ==> IsDocBlock(b)
    ensures ParseText(WriteLines(Print(blocks))) == blocks
  {
    forall line | line in Print(blocks)
      ensures OneLine(line)
    {
      PrintedLinesAreLines(blocks, line);
    }
    WrittenLines(Print(blocks));
    PrintedLinesAreParsed(Print(blocks), 0, blocks);
  }

  // ----- any text at all

  function RunEnd(lines: seq<string>, i: nat): (end: nat)
    requires i < |lines|
    ensures i < end <= |lines|
  {
    var next := Next(lines, i).next;
    if next <= |lines| then next else |lines|
  }

  /** The runs of lines that the parser takes, from line `i` on. */
  function Runs(lines: seq<string>, i: nat): seq<seq<string>>
    requires i <= |lines|
    decreases |lines| - i
  {
    if i == |lines| then []
    else
      var end := RunEnd(lines, i);
      [lines[i..end]] + Runs(lines, end)
  }

  function Flat(runs: seq<seq<string>>): seq<string> {
    if runs == [] then [] else runs[0] + Flat(runs[1..])
  }

  lemma {:induction false} SkipInRun<T>(lines: seq<T>, i: nat, from: nat, end: nat, p: T -> bool)
    requires i <= from <= end <= |lines| && Skip(lines, from, p) <= end
    ensures Skip(lines[i..end], from - i, p) == Skip(lines, from, p) - i
    decreases end - from
  {
    if from < end && p(lines[from]) {
      SkipInRun(lines, i, from + 1, end, p);
    }
  }

  lemma {:induction false} ListInRun(lines: seq<string>, i: nat, j: nat, items: seq<Item>)
    requires i <= j <= |lines|
    ensures
      var listed := ListFrom(lines, j, items);
      ListFrom(lines[i..listed.end], j - i, items) == Listed(listed.items, listed.end - i)
    decreases |lines| - j
  {
    hide MatchItem, Continues;
    if j < |lines| {
      var m := MatchItem(lines[j]);
      if m.Some? {
        ListInRun(lines, i, j + 1, items + [m.value]);
      } else if Continues(lines[j]) && items != [] {
        ListInRun(lines, i, j + 1, AddToLast(items, lines[j]));
      }
    }
  }

  lemma SliceOfSlice<T>(lines: seq<T>, i: nat, end: nat, from: nat, to: nat)
    requires i <= from <= to <= end <= |lines|
    ensures lines[i..end][from - i..to - i] == lines[from..to]
  {
    forall k | 0 <= k < to - from
      ensures lines[i..end][from - i..to - i][k] == lines[from..to][k]
    {
      assert lines[i..end][from - i + k] == lines[from + k];
    }
  }

  /** A block depends on the lines of its own run only. */
  lemma BlockOfRun(lines: seq<string>, i: nat)
    requires i < |lines|
    ensures Next(lines[i..RunEnd(lines, i)], 0) == Step(Next(lines, i).block, Next(lines, i).next - i)
  {
    hide IsHeading, IsRuler, IsPipe, MatchItem, Cells, IsOrdered, HashCount, QuoteText, IsParagraphLine;
    hide Joined, Map, AllCells;
    var line, end := lines[i], RunEnd(lines, i);
    var run := lines[i..end];
    assert run[0] == line;
    if IsBlank(line) {
    } else if IsFence(line) {
      SkipInRun(lines, i, i + 1, end, NoFence);
      SliceOfSlice(lines, i, end, i + 1, Skip(lines, i + 1, NoFence));
    } else if IsHeading(line) {
    } else if OpensTable(lines, i) {
      SkipInRun(lines, i, i + 2, end, IsPipe);
      SliceOfSlice(lines, i, end, i + 2, end);
    } else if IsQuote(line) {
      SkipInRun(lines, i, i, end, IsQuote);
      SliceOfSlice(lines, i, end, i, end);
    } else if MatchItem(line).Some? {
      ListInRun(lines, i, i, []);
    } else {
      SkipInRun(lines, i, i, end, IsParagraphLine);
      SliceOfSlice(lines, i, end, i, end);
    }
  }

  lemma RunParsesAlone(lines: seq<string>, i: nat)
    requires i < |lines|
    ensures
      var run := lines[i..RunEnd(lines, i)];
      ParseFrom(run, 0) == if IsBlank(run[0]) then [] else [Next(lines, i).block.value]
  {
    hide Next, IsBlank;
    BlockOfRun(lines, i);
  }

  predicate IsRun(run: seq<string>) {
    run != [] && if IsBlank(run[0]) then |run| == 1 && ParseFrom(run, 0) == [] else |ParseFrom(run, 0)| == 1
  }

  lemma FirstRun(lines: seq<string>, i: nat)
    requires i < |lines|
    ensures
      var end := RunEnd(lines, i);
      var run := lines[i..end];
      IsRun(run) && ParseFrom(lines, i) == ParseFrom(run, 0) + ParseFrom(lines, end)
  {
    hide Next, IsBlank;
    var next, end := Next(lines, i).next, RunEnd(lines, i);
    RunParsesAlone(lines, i);
    assert lines[i..end][0] == lines[i];
    if IsBlank(lines[i]) {
      BlankStep(lines, i);
    }
    assert ParseFrom(lines, next) == ParseFrom(lines, end);
  }

  /** The blocks that the runs give, each parsed on its own. */
  function BlocksOf(runs: seq<seq<string>>): seq<Block> {
    if runs == [] then [] else ParseFrom(runs[0], 0) + BlocksOf(runs[1..])
  }

  lemma OneMoreRun(run: seq<string>, runs: seq<seq<string>>)
    ensures Flat([run] + runs) == run + Flat(runs)
    ensures BlocksOf([run] + runs) == ParseFrom(run, 0) + BlocksOf(runs)
  {
    hide ParseFrom;
    assert ([run] + runs)[1..] == runs;
  }

  /** The runs are the lines of the text in order. A run that starts with a blank line is that line
      and gives no block; every other run gives one block, which depends on no other line. */
  lemma {:induction false} RunsPartitionTheText(lines: seq<string>, i: nat)
    requires i <= |lines|
    ensures Flat(Runs(lines, i)) == lines[i..]
    ensures forall r :: r in Runs(lines, i) ==> IsRun(r)
    ensures ParseFrom(lines, i) == BlocksOf(Runs(lines, i))
    decreases |lines| - i
  {
    if i < |lines| {
      var end := RunEnd(lines, i);
      var run := lines[i..end];
      FirstRun(lines, i);
      assert Runs(lines, i) == [run] + Runs(lines, end);
      hide IsRun, ParseFrom, RunEnd, Runs, Flat, BlocksOf;
      RunsPartitionTheText(lines, end);
      OneMoreRun(run, Runs(lines, end));
      assert run + lines[end..] == lines[i..];
    }
  }

  /** The guard against endless loops acts only on a pipe line that opens no table. */
  lemma GuardIsForStrayPipes(lines: seq<string>, i: nat)
    requires i < |lines| && !IsBlank(lines[i]) && !IsFence(lines[i]) && !IsHeading(lines[i])
    requires !OpensTable(lines, i) && !IsQuote(lines[i]) && MatchItem(lines[i]).None?
    ensures Skip(lines, i, IsParagraphLine) == i <==> IsPipe(lines[i])
  {
  }
}
