/** The block parser of the handbook: one step per block, and the loops that take the steps. */
module Handbook {
  import opened Wrappers
  import opened Text
  import opened Fields

  datatype Item = Item(depth: nat, text: string)

  datatype Block =
    | Code(text: string)
    | Heading(level: nat, text: string)
    | Table(head: seq<string>, rows: seq<seq<string>>)
    | Quote(text: string)
    | Items(ordered: bool, items: seq<Item>)
    | Paragraph(text: string)

  // ----- what a line looks like

  predicate IsBlank(line: string) { Strip(line) == "" }

  predicate StartsWith(line: string, prefix: string) { prefix <= line }

  predicate IsFence(line: string) { StartsWith(line, "```") }
  predicate NoFence(line: string) { !IsFence(line) }

  predicate IsHash(c: char) { c == '#' }

  function HashCount(line: string): (n: nat)
    ensures n <= |line|
  {
    Skip(line, 0, IsHash)
  }

  /** `^#{1,6}\s` */
  predicate IsHeading(line: string) {
    var n := HashCount(line);
    1 <= n <= 6 && n < |line| && IsSpace(line[n])
  }

  predicate IsPipe(line: string) { StartsWith(StripLeft(line), "|") }

  predicate IsRulerChar(c: char) { IsSpace(c) || c == ':' || c == '|' || c == '-' }

  /** `^\s*\|[\s:|-]+\|\s*$` */
  predicate IsRuler(line: string) {
    var t := Strip(line);
    |t| >= 3 && t[0] == '|' && t[|t| - 1] == '|' && All(t[1..|t| - 1], IsRulerChar)
  }

  predicate IsQuote(line: string) { StartsWith(line, ">") }

  /** The position after the marker that starts at `i`, or `i` if none does. */
  function MarkerEnd(line: string, i: nat): (j: nat)
    requires i <= |line|
    ensures i <= j <= |line|
  {
    if i < |line| && (line[i] == '-' || line[i] == '*') then i + 1
    else
      var j := Skip(line, i, IsDecimal);
      if i < j < |line| && line[j] == '.' then j + 1 else i
  }

  /** `^(\s*)([-*]|\d+\.)\s+(.*)$`: the width of the indentation and the trimmed text. */
  function MatchItem(line: string): Option<Item> {
    var indent := Skip(line, 0, IsSpace);
    var end := MarkerEnd(line, indent);
    if end == indent || end == |line| || !IsSpace(line[end]) then None
    else
      var depth := indent / 2;
      Some(Item(if depth < 3 then depth else 3, Strip(line[Skip(line, end, IsSpace)..])))
  }

  predicate IsOrdered(line: string) {
    var indent := Skip(line, 0, IsSpace);
    indent < |line| && line[indent] != '-' && line[indent] != '*' && MarkerEnd(line, indent) > indent
  }

  predicate StartsBlock(line: string) {
    IsHeading(line) || IsFence(line) || IsQuote(line) || IsPipe(line)
  }

  predicate IsParagraphLine(line: string) {
    !IsBlank(line) && !StartsBlock(line) && MatchItem(line).None?
  }

  // ----- what a block is made of

  function Map(lines: seq<string>, f: string -> string): seq<string> {
    seq(|lines|, i requires 0 <= i < |lines| => f(lines[i]))
  }

  function Joined(parts: seq<string>, sep: char): string {
    if parts == [] then "" else JoinWith(parts, sep)
  }

  function StripLeftOf(s: string, c: char): string {
    if s != "" && s[0] == c then StripLeftOf(s[1..], c) else s
  }

  function StripRightOf(s: string, c: char): string {
    if s != "" && s[|s| - 1] == c then StripRightOf(s[..|s| - 1], c) else s
  }

  function QuoteText(line: string): string { Strip(StripLeftOf(line, '>')) }

  function Cells(line: string): seq<string> {
    Map(SplitOn(StripRightOf(StripLeftOf(Strip(line), '|'), '|'), '|'), Strip)
  }

  function AllCells(lines: seq<string>): seq<seq<string>> {
    seq(|lines|, i requires 0 <= i < |lines| => Cells(lines[i]))
  }

  datatype Listed = Listed(items: seq<Item>, end: nat)

  predicate Continues(line: string) { !IsBlank(line) && StartsWith(line, " ") }

  function AddToLast(items: seq<Item>, line: string): seq<Item>
    requires items != []
  {
    var last := items[|items| - 1];
    items[..|items| - 1] + [last.(text := last.text + (" " + Strip(line)))]
  }

  /** Items from line `j` on; an indented line that is no item continues the item before it. */
  function ListFrom(lines: seq<string>, j: nat, items: seq<Item>): (r: Listed)
    requires j <= |lines|
    ensures j <= r.end <= |lines|
    decreases |lines| - j
  {
    if j == |lines| then Listed(items, j)
    else
      var m := MatchItem(lines[j]);
      if m.Some? then ListFrom(lines, j + 1, items + [m.value])
      else if Continues(lines[j]) && items != [] then ListFrom(lines, j + 1, AddToLast(items, lines[j]))
      else Listed(items, j)
  }

  predicate OpensTable(lines: seq<string>, i: nat)
    requires i < |lines|
  {
    IsPipe(lines[i]) && i + 1 < |lines| && IsRuler(lines[i + 1])
  }

  /** The block that starts at line `i`, if the line is not blank, and where parsing goes on. */
  datatype Step = Step(block: Option<Block>, next: nat)

  function Next(lines: seq<string>, i: nat): (s: Step)
    requires i < |lines|
    ensures i < s.next <= |lines| + 1
    ensures s.block.None? <==> IsBlank(lines[i])
  {
    var line := lines[i];
    if IsBlank(line) then Step(None, i + 1)
    else if IsFence(line) then
      var j := Skip(lines, i + 1, NoFence);
      Step(Some(Code(Joined(lines[i + 1..j], '\n'))), j + 1)
    else if IsHeading(line) then
      var level := HashCount(line);
      Step(Some(Heading(level, Strip(line[level..]))), i + 1)
    else if OpensTable(lines, i) then
      var j := Skip(lines, i + 2, IsPipe);
      Step(Some(Table(Cells(line), AllCells(lines[i + 2..j]))), j)
    else if IsQuote(line) then
      var j := Skip(lines, i, IsQuote);
      Step(Some(Quote(Joined(Map(lines[i..j], QuoteText), ' '))), j)
    else if MatchItem(line).Some? then
      var listed := ListFrom(lines, i, []);
      Step(Some(Items(IsOrdered(line), listed.items)), listed.end)
    else
      var j := Skip(lines, i, IsParagraphLine);
      if j == i then Step(Some(Paragraph(Strip(line))), i + 1)
      else Step(Some(Paragraph(Joined(Map(lines[i..j], Strip), ' '))), j)
  }

  function ParseFrom(lines: seq<string>, i: nat): seq<Block>
    decreases |lines| - i
  {
    if i >= |lines| then []
    else
      var s := Next(lines, i);
      (if s.block.Some? then [s.block.value] else []) + ParseFrom(lines, s.next)
  }

  function ParseText(text: string): seq<Block> { ParseFrom(SplitLines(text), 0) }

  // ----- the loops of the script

  method WhileLoop(lines: seq<string>, from: nat, p: string -> bool) returns (j: nat)
    requires from <= |lines|
    ensures j == Skip(lines, from, p)
  {
    j := from;
    while j < |lines| && p(lines[j])
      invariant from <= j <= |lines| && Skip(lines, j, p) == Skip(lines, from, p)
    {
      j := j + 1;
    }
  }

  method CollectLines(lines: seq<string>, from: nat, p: string -> bool, f: string -> string)
    returns (buf: seq<string>, j: nat)
    requires from <= |lines|
    ensures j == Skip(lines, from, p) && buf == Map(lines[from..j], f)
  {
    j, buf := from, [];
    while j < |lines| && p(lines[j])
      invariant from <= j <= |lines| && Skip(lines, j, p) == Skip(lines, from, p)
      invariant buf == Map(lines[from..j], f)
    {
      assert lines[from..j + 1] == lines[from..j] + [lines[j]];
      buf := buf + [f(lines[j])];
      j := j + 1;
    }
  }

  method CollectRows(lines: seq<string>, from: nat) returns (rows: seq<seq<string>>, j: nat)
    requires from <= |lines|
    ensures j == Skip(lines, from, IsPipe) && rows == AllCells(lines[from..j])
  {
    hide Cells;
    j, rows := from, [];
    while j < |lines| && IsPipe(lines[j])
      invariant from <= j <= |lines| && Skip(lines, j, IsPipe) == Skip(lines, from, IsPipe)
      invariant rows == AllCells(lines[from..j])
    {
      assert lines[from..j + 1] == lines[from..j] + [lines[j]];
      rows := rows + [Cells(lines[j])];
      j := j + 1;
    }
  }

  method CollectItems(lines: seq<string>, from: nat) returns (items: seq<Item>, j: nat)
    requires from <= |lines|
    ensures Listed(items, j) == ListFrom(lines, from, [])
  {
    hide MatchItem, Continues;
    j, items := from, [];
    while j < |lines|
      invariant from <= j <= |lines|
      invariant ListFrom(lines, j, items) == ListFrom(lines, from, [])
    {
      var m := MatchItem(lines[j]);
      if m.Some? {
        items := items + [m.value];
      } else if Continues(lines[j]) && items != [] {
        items := AddToLast(items, lines[j]);
      } else {
        return;
      }
      j := j + 1;
    }
  }

  method ParseBlock(lines: seq<string>, i: nat) returns (block: Block, next: nat)
    requires i < |lines| && !IsBlank(lines[i])
    ensures Next(lines, i) == Step(Some(block), next)
  {
    hide IsHeading, IsRuler, IsPipe, MatchItem, Cells, IsOrdered, HashCount, QuoteText, IsParagraphLine;
    var line := lines[i];
    if IsFence(line) {
      var j := WhileLoop(lines, i + 1, NoFence);
      return Code(Joined(lines[i + 1..j], '\n')), j + 1;
    }
    if IsHeading(line) {
      var level := HashCount(line);
      return Heading(level, Strip(line[level..])), i + 1;
    }
    if OpensTable(lines, i) {
      var rows, j := CollectRows(lines, i + 2);
      return Table(Cells(line), rows), j;
    }
    if IsQuote(line) {
      var buf, j := CollectLines(lines, i, IsQuote, QuoteText);
      return Quote(Joined(buf, ' ')), j;
    }
    if MatchItem(line).Some? {
      var items, j := CollectItems(lines, i);
      return Items(IsOrdered(line), items), j;
    }
    var buf, j := CollectLines(lines, i, IsParagraphLine, Strip);
    if buf == [] {
      buf, j := [Strip(line)], i + 1;
    }
    return Paragraph(Joined(buf, ' ')), j;
  }

  lemma BlankStep(lines: seq<string>, i: nat)
    requires i < |lines| && IsBlank(lines[i])
    ensures Next(lines, i) == Step(None, i + 1)
  {
  }

  lemma MoreBlocks(blocks: seq<Block>, block: Block, rest: seq<Block>)
    ensures blocks + ([block] + rest) == blocks + [block] + rest
  {
  }

  method Parse(text: string) returns (blocks: seq<Block>)
    ensures blocks == ParseText(text)
  {
    hide Next, IsBlank, SplitLines;
    var lines := SplitLines(text);
    blocks := [];
    var i := 0;
    while i < |lines|
      invariant blocks + ParseFrom(lines, i) == ParseText(text)
      decreases |lines| - i
    {
      if IsBlank(lines[i]) {
        BlankStep(lines, i);
        i := i + 1;
      } else {
        var block, next := ParseBlock(lines, i);
        MoreBlocks(blocks, block, ParseFrom(lines, next));
        blocks := blocks + [block];
        i := next;
      }
    }
  }
}
