/** Documents as they are written by hand: blocks of several lines, any indentation and any marker. */
module HandbookLayouts {
  import opened Wrappers
  import opened Text
  import opened Fields
  import opened TextLaws
  import opened Handbook
  import opened HandbookDocuments

  /** A text between blanks. */
  datatype Line = Line(before: string, text: string, after: string) {
    function Shown(): string { before + (text + after) }
  }

  datatype Marker = Dash | Star | Number(digits: string) {
    function Shown(): string {
      match this
      case Dash => "-"
      case Star => "*"
      case Number(digits) => digits + "."
    }
  }

  /** An item, its first line, and the lines that continue it. */
  datatype Entry = Entry(indent: nat, marker: Marker, line: Line, more: seq<Line>)

  datatype Layout =
    | Fenced(info: string, body: seq<string>, close: string)
    | Titled(level: nat, line: Line)
    | Ruled(head: seq<string>, ruler: string, rows: seq<seq<string>>)
    | Quoted(depths: seq<nat>, lines: seq<Line>)
    | Listing(entries: seq<Entry>)
    | Prose(lines: seq<Line>)

  // ----- which layouts are meant

  predicate IsGap(s: string) { IsBlankText(s) && OneLine(s) }

  predicate IsLaid(l: Line) { IsGap(l.before) && IsGap(l.after) && IsText(l.text) }

  predicate StartsItem(c: char) { c == '-' || c == '*' || IsDecimal(c) }

  predicate IsSpecial(c: char) { c == '#' || c == '`' || c == '>' || c == '|' || StartsItem(c) }

  predicate IsProse(l: Line) { IsLaid(l) && l.text != "" && !IsSpecial(l.text[0]) }

  predicate Continued(l: Line) {
    IsLaid(l) && l.before != "" && l.before[0] == ' ' && l.text != "" && !StartsItem(l.text[0])
  }

  predicate IsMarker(m: Marker) {
    m.Number? ==> m.digits != "" && forall k :: 0 <= k < |m.digits| ==> '0' <= m.digits[k] <= '9'
  }

  predicate IsEntry(e: Entry) {
    IsMarker(e.marker) && IsLaid(e.line) && e.line.before != "" && forall l :: l in e.more ==> Continued(l)
  }

  predicate IsRulerText(s: string) {
    |s| >= 3 && s[0] == '|' && s[|s| - 1] == '|'
    && forall k :: 0 < k < |s| - 1 ==> s[k] == '|' || s[k] == '-' || s[k] == ':' || s[k] == ' '
  }

  predicate IsLayout(b: Layout) {
    match b
    case Fenced(info, body, close) =>
      OneLine(info) && OneLine(close) && forall line :: line in body ==> OneLine(line) && !("```" <= line)
    case Titled(level, line) => 1 <= level <= 6 && IsLaid(line) && line.before != ""
    case Ruled(head, ruler, rows) => IsRow(head) && IsRulerText(ruler) && forall r :: r in rows ==> IsRow(r)
    case Quoted(depths, lines) =>
      && lines != [] && |depths| == |lines| && (forall d :: d in depths ==> d > 0)
      && forall l :: l in lines ==> IsLaid(l) && (l.text != "" ==> l.text[0] != '>')
    case Listing(entries) => entries != [] && forall e :: e in entries ==> IsEntry(e)
    case Prose(lines) => lines != [] && forall l :: l in lines ==> IsProse(l)
  }

  // ----- their lines and their meaning

  function ShownLines(lines: seq<Line>): seq<string> {
    seq(|lines|, i requires 0 <= i < |lines| => lines[i].Shown())
  }

  function Texts(lines: seq<Line>): seq<string> {
    seq(|lines|, i requires 0 <= i < |lines| => lines[i].text)
  }

  function QuotedLine(depth: nat, l: Line): string { Repeat('>', depth) + l.Shown() }

  function EntryLine(e: Entry): string { Repeat(' ', e.indent) + (e.marker.Shown() + e.line.Shown()) }

  function EntryLines(entries: seq<Entry>): seq<string> {
    if entries == [] then []
    else [EntryLine(entries[0])] + ShownLines(entries[0].more) + EntryLines(entries[1..])
  }

  function Shown(b: Layout): seq<string>
    requires IsLayout(b)
  {
    match b
    case Fenced(info, body, close) => ["```" + info] + (body + ["```" + close])
    case Titled(level, line) => [Repeat('#', level) + line.Shown()]
    case Ruled(head, ruler, rows) => [RowLine(head), ruler] + RowLines(rows)
    case Quoted(depths, lines) =>
      seq(|lines|, i requires 0 <= i < |lines| => QuotedLine(depths[i], lines[i]))
    case Listing(entries) => EntryLines(entries)
    case Prose(lines) => ShownLines(lines)
  }

  /** Two blanks of indentation make a level, and the fourth level is the last. */
  function Depth(indent: nat): nat {
    if indent < 2 then 0 else if indent < 4 then 1 else if indent < 6 then 2 else 3
  }

  function ItemOf(e: Entry): Item {
    Item(Depth(e.indent), JoinWith([e.line.text] + Texts(e.more), ' '))
  }

  function ItemsOf(entries: seq<Entry>): seq<Item> {
    seq(|entries|, i requires 0 <= i < |entries| => ItemOf(entries[i]))
  }

  function Meaning(b: Layout): Block
    requires IsLayout(b)
  {
    match b
    case Fenced(_, body, _) => Code(if body == [] then "" else JoinWith(body, '\n'))
    case Titled(level, line) => Heading(level, line.text)
    case Ruled(head, _, rows) => Table(head, rows)
    case Quoted(_, lines) => Quote(JoinWith(Texts(lines), ' '))
    case Listing(entries) => Items(entries[0].marker.Number?, ItemsOf(entries))
    case Prose(lines) => Paragraph(JoinWith(Texts(lines), ' '))
  }

  function Written(layouts: seq<Layout>): seq<string>
    requires forall b :: b in layouts ==> IsLayout(b)
  {
    if layouts == [] then []
    else
      assert layouts[0] in layouts;
      Shown(layouts[0]) + ([""] + Written(layouts[1..]))
  }

  function Meanings(layouts: seq<Layout>): seq<Block>
    requires forall b :: b in layouts ==> IsLayout(b)
  {
    seq(|layouts|, i requires 0 <= i < |layouts| => assert layouts[i] in layouts; Meaning(layouts[i]))
  }

  // ----- single lines

  lemma LaidLine(l: Line)
    requires IsLaid(l)
    ensures Strip(l.Shown()) == l.text && OneLine(l.Shown())
  {
    TrimmedTextComesBack(l.before, l.text, l.after);
  }

  lemma FirstOfLine(l: Line)
    requires IsLaid(l) && l.text != ""
    ensures
      var line := l.Shown();
      && Skip(line, 0, IsSpace) == |l.before| < |line| && line[|l.before|] == l.text[0]
      && StripLeft(line) == l.text + l.after && !IsBlank(line)
  {
    var line := l.Shown();
    assert At(line, 0, l.before);
    assert line[|l.before|] == l.text[0];
    SkipAt(line, 0, l.before, IsSpace);
    StripLeftOfPadded(l.before, l.text + l.after);
    LaidLine(l);
  }

  lemma NoItem(l: Line)
    requires IsLaid(l) && l.text != "" && !StartsItem(l.text[0])
    ensures MatchItem(l.Shown()) == None
  {
    FirstOfLine(l);
  }

  lemma ProseLine(l: Line)
    requires IsProse(l)
    ensures IsParagraphLine(l.Shown()) && !IsQuote(l.Shown()) && !IsPipe(l.Shown())
    ensures !IsFence(l.Shown()) && !IsHeading(l.Shown())
  {
    hide MatchItem, StripLeft, IsBlank;
    FirstOfLine(l);
    NoItem(l);
    var line := l.Shown();
    assert line[0] == if l.before == "" then l.text[0] else l.before[0];
    OtherStart(line);
  }

  lemma ContinuedLine(l: Line)
    requires Continued(l)
    ensures Continues(l.Shown()) && MatchItem(l.Shown()) == None
  {
    FirstOfLine(l);
    NoItem(l);
  }

  lemma {:induction false} AllOff(c: char, n: nat, s: string)
    requires s != "" ==> s[0] != c
    ensures StripLeftOf(Repeat(c, n) + s, c) == s
    decreases n
  {
    if n == 0 {
      assert Repeat(c, n) + s == s;
    } else {
      assert (Repeat(c, n) + s)[1..] == Repeat(c, n - 1) + s;
      AllOff(c, n - 1, s);
    }
  }

  lemma QuotedLineText(depth: nat, l: Line)
    requires depth > 0 && IsLaid(l) && (l.text != "" ==> l.text[0] != '>')
    ensures
      var line := QuotedLine(depth, l);
      && IsQuote(line) && QuoteText(line) == l.text && OneLine(line)
      && !IsBlank(line) && !IsFence(line) && !IsHeading(line) && !IsPipe(line)
  {
    var line := QuotedLine(depth, l);
    assert line[0] == '>';
    var shown := l.Shown();
    if shown != "" && l.before == "" && l.text == "" {
      assert shown == l.after;
    }
    AllOff('>', depth, shown);
    LaidLine(l);
    NotBlank(line);
  }

  lemma TitledLine(level: nat, l: Line)
    requires 1 <= level <= 6 && IsLaid(l) && l.before != ""
    ensures
      var line := Repeat('#', level) + l.Shown();
      && !IsBlank(line) && !IsFence(line) && IsHeading(line) && OneLine(line)
      && HashCount(line) == level && Strip(line[level..]) == l.text
  {
    var line := Repeat('#', level) + l.Shown();
    assert At(line, 0, Repeat('#', level));
    assert line[level] == l.before[0];
    SkipAt(line, 0, Repeat('#', level), IsHash);
    assert line[level..] == l.Shown();
    NotBlank(line);
    LaidLine(l);
  }

  lemma RulerLine(ruler: string)
    requires IsRulerText(ruler)
    ensures IsRuler(ruler) && OneLine(ruler)
  {
    StripOfTrimmed(ruler);
  }

  // ----- the first line of an item

  lemma MarkerEnds(line: string, i: nat, m: Marker)
    requires IsMarker(m) && At(line, i, m.Shown()) && i + |m.Shown()| < |line| && IsSpace(line[i + |m.Shown()|])
    ensures MarkerEnd(line, i) == i + |m.Shown()|
  {
    AtTail(line, i, m.Shown());
    if m.Number? {
      AtBoth(line, i, m.digits, ".");
      AtTail(line, i + |m.digits|, ".");
      SkipAt(line, i, m.digits, IsDecimal);
    }
  }

  lemma EntryPieces(e: Entry)
    requires IsEntry(e)
    ensures
      var line, marker := EntryLine(e), e.marker.Shown();
      && marker != "" && !IsSpace(marker[0]) && At(line, 0, Repeat(' ', e.indent)) && At(line, e.indent, marker)
      && e.indent + |marker| < |line| && line[e.indent + |marker|] == e.line.before[0]
      && line[e.indent + |marker|..] == e.line.Shown()
  {
  }

  lemma MarkerParts(e: Entry)
    requires IsEntry(e)
    ensures
      var line, end := EntryLine(e), e.indent + |e.marker.Shown()|;
      && Skip(line, 0, IsSpace) == e.indent < end < |line| && MarkerEnd(line, e.indent) == end
      && IsSpace(line[end]) && line[end..] == e.line.Shown()
      && line[e.indent] == e.marker.Shown()[0]
  {
    hide EntryLine;
    EntryPieces(e);
    AtTail(EntryLine(e), e.indent, e.marker.Shown());
    SkipAt(EntryLine(e), 0, Repeat(' ', e.indent), IsSpace);
    MarkerEnds(EntryLine(e), e.indent, e.marker);
  }

  lemma EntryIsOneLine(e: Entry)
    requires IsEntry(e)
    ensures OneLine(EntryLine(e))
  {
    LaidLine(e.line);
    JoinedTextIsOneLine(e.marker.Shown(), e.line.Shown());
    JoinedTextIsOneLine(Repeat(' ', e.indent), e.marker.Shown() + e.line.Shown());
  }

  lemma {:induction false} SkipShifted(s: string, end: nat, j: nat)
    requires end <= j <= |s|
    ensures Skip(s, j, IsSpace) == Skip(s[end..], j - end, IsSpace) + end
    decreases |s| - j
  {
    if j < |s| && IsSpace(s[j]) {
      SkipShifted(s, end, j + 1);
    }
  }

  lemma {:induction false} StripLeftTwice(s: string)
    ensures StripLeft(StripLeft(s)) == StripLeft(s)
    decreases |s|
  {
    if s != "" && IsSpace(s[0]) {
      StripLeftTwice(s[1..]);
    }
  }

  lemma TextBehindMarker(line: string, end: nat)
    requires end <= |line|
    ensures Strip(line[Skip(line, end, IsSpace)..]) == Strip(line[end..])
  {
    var tail := line[end..];
    SkipShifted(line, end, end);
    StripLeftIsSkip(tail, Skip(tail, 0, IsSpace));
    assert tail[Skip(tail, 0, IsSpace)..] == line[Skip(line, end, IsSpace)..];
    StripLeftTwice(tail);
  }

  lemma EntryLineMatches(e: Entry)
    requires IsEntry(e)
    ensures MatchItem(EntryLine(e)) == Some(Item(Depth(e.indent), e.line.text))
    ensures IsOrdered(EntryLine(e)) <==> e.marker.Number?
  {
    hide Skip, MarkerEnd, Strip, EntryLine, IsLaid, IsGap;
    var line, end := EntryLine(e), e.indent + |e.marker.Shown()|;
    MarkerParts(e);
    TextBehindMarker(line, end);
    LaidLine(e.line);
  }

  lemma EntryLineStartsNothingElse(e: Entry)
    requires IsEntry(e)
    ensures
      var line := EntryLine(e);
      !IsBlank(line) && !IsFence(line) && !IsHeading(line) && !IsPipe(line) && !IsQuote(line)
  {
    var line := EntryLine(e);
    MarkerParts(e);
    StripLeftIsSkip(line, e.indent);
    var first := StripLeft(line)[0];
    assert first == e.marker.Shown()[0] == line[e.indent];
    StripRightKeepsFirst(StripLeft(line));
    assert line[0] == if e.indent == 0 then first else ' ';
    OtherStart(line);
  }

  // ----- single blocks

  /** `shown` stands at line `i` with a blank line behind it. */
  predicate Stands(lines: seq<string>, i: nat, shown: seq<string>) {
    At(lines, i, shown) && i + |shown| < |lines| && lines[i + |shown|] == ""
  }

  lemma FencedParts(lines: seq<string>, i: nat, first: string, body: seq<string>, last: string)
    requires At(lines, i, [first] + (body + [last]))
    ensures
      var end := i + 1 + |body|;
      end < |lines| && lines[i] == first && lines[end] == last && At(lines, i + 1, body) && lines[i + 1..end] == body
  {
    AtBoth(lines, i, [first], body + [last]);
    AtBoth(lines, i + 1, body, [last]);
    AtTail(lines, i, [first]);
    AtTail(lines, i + 1 + |body|, [last]);
    AtSlice(lines, i + 1, body);
  }

  lemma FenceStep(lines: seq<string>, i: nat, close: nat)
    requires i < |lines| && "```" <= lines[i] && Skip(lines, i + 1, NoFence) == close
    ensures Next(lines, i) == Step(Some(Code(Joined(lines[i + 1..close], '\n'))), close + 1)
  {
    hide Joined, Skip;
    NotBlank(lines[i]);
  }

  lemma NextFencedLayout(lines: seq<string>, i: nat, info: string, body: seq<string>, close: string)
    requires IsLayout(Fenced(info, body, close)) && Stands(lines, i, Shown(Fenced(info, body, close)))
    ensures Next(lines, i) == Step(Some(Meaning(Fenced(info, body, close))), i + |body| + 2)
  {
    hide Next, JoinWith, OneLine, At;
    FencedParts(lines, i, "```" + info, body, "```" + close);
    forall k | 0 <= k < |body|
      ensures NoFence(body[k])
    {
      assert body[k] in body;
    }
    SkipAt(lines, i + 1, body, NoFence);
    FenceStep(lines, i, i + 1 + |body|);
  }

  lemma NextTitledLayout(lines: seq<string>, i: nat, level: nat, line: Line)
    requires IsLayout(Titled(level, line)) && Stands(lines, i, Shown(Titled(level, line)))
    ensures Next(lines, i) == Step(Some(Heading(level, line.text)), i + 1)
  {
    hide IsHeading, IsRuler, MatchItem, IsPipe, HashCount, Strip;
    var shown := Shown(Titled(level, line));
    assert lines[i + 0] == shown[0];
    TitledLine(level, line);
  }

  lemma RowsBelow(lines: seq<string>, i: nat, rows: seq<seq<string>>)
    requires forall r :: r in rows ==> r != [] && IsRow(r)
    requires Stands(lines, i, RowLines(rows))
    ensures Skip(lines, i, IsPipe) == i + |rows| && AllCells(lines[i..i + |rows|]) == rows
  {
    hide IsPipe, Cells, RowLine, IsRow;
    var below := RowLines(rows);
    assert !IsPipe("") by { BlankLine(); }
    forall k | 0 <= k < |rows|
      ensures IsPipe(below[k]) && Cells(below[k]) == rows[k]
    {
      assert rows[k] in rows;
      RowLineIsPipe(rows[k]);
      RowLineCells(rows[k]);
    }
    SkipAt(lines, i, below, IsPipe);
    AtSlice(lines, i, below);
  }

  lemma TableStep(lines: seq<string>, i: nat, rows: seq<seq<string>>)
    requires i + 1 < |lines| && !IsBlank(lines[i]) && !IsFence(lines[i]) && !IsHeading(lines[i])
    requires IsPipe(lines[i]) && IsRuler(lines[i + 1])
    requires Skip(lines, i + 2, IsPipe) == i + 2 + |rows| && AllCells(lines[i + 2..i + 2 + |rows|]) == rows
    ensures Next(lines, i) == Step(Some(Table(Cells(lines[i]), rows)), i + 2 + |rows|)
  {
    hide IsBlank, IsHeading, IsRuler, IsPipe, Cells, AllCells;
  }

  lemma TableParts(lines: seq<string>, i: nat, first: string, ruler: string, below: seq<string>)
    requires Stands(lines, i, [first, ruler] + below)
    ensures i + 1 < |lines| && lines[i] == first && lines[i + 1] == ruler && Stands(lines, i + 2, below)
  {
    AtBoth(lines, i, [first, ruler], below);
    assert lines[i + 0] == [first, ruler][0] && lines[i + 1] == [first, ruler][1];
  }

  lemma NextRuledLayout(lines: seq<string>, i: nat, head: seq<string>, ruler: string, rows: seq<seq<string>>)
    requires IsLayout(Ruled(head, ruler, rows)) && Stands(lines, i, Shown(Ruled(head, ruler, rows)))
    ensures Next(lines, i) == Step(Some(Table(head, rows)), i + 2 + |rows|)
  {
    hide Next, RowLine, IsRulerText, IsBlank, IsHeading, IsPipe, IsRuler, Cells, Skip, AllCells, Stands, IsText;
    TableParts(lines, i, RowLine(head), ruler, RowLines(rows));
    RowLineIsPipe(head);
    RulerLine(ruler);
    RowsBelow(lines, i + 2, rows);
    RowLineCells(head);
    TableStep(lines, i, rows);
  }

  lemma QuotedLinesAre(depths: seq<nat>, lines: seq<Line>)
    requires IsLayout(Quoted(depths, lines))
    ensures
      var shown := Shown(Quoted(depths, lines));
      All(shown, IsQuote) && Map(shown, QuoteText) == Texts(lines)
      && !IsBlank(shown[0]) && !IsFence(shown[0]) && !IsHeading(shown[0]) && !IsPipe(shown[0])
  {
    hide IsQuote, QuoteText, QuotedLine, IsBlank, IsHeading, IsPipe, IsLaid;
    forall k | 0 <= k < |lines|
      ensures
        var line := QuotedLine(depths[k], lines[k]);
        IsQuote(line) && QuoteText(line) == lines[k].text
        && !IsBlank(line) && !IsFence(line) && !IsHeading(line) && !IsPipe(line)
    {
      assert lines[k] in lines && depths[k] in depths;
      QuotedLineText(depths[k], lines[k]);
    }
  }

  lemma NextQuotedLayout(lines: seq<string>, i: nat, depths: seq<nat>, quoted: seq<Line>)
    requires IsLayout(Quoted(depths, quoted)) && Stands(lines, i, Shown(Quoted(depths, quoted)))
    ensures Next(lines, i) == Step(Some(Quote(JoinWith(Texts(quoted), ' '))), i + |quoted|)
  {
    hide IsHeading, IsRuler, MatchItem, IsPipe, QuoteText, JoinWith, IsBlank;
    var shown := Shown(Quoted(depths, quoted));
    QuotedLinesAre(depths, quoted);
    assert lines[i + 0] == shown[0];
    SkipAt(lines, i, shown, IsQuote);
    AtSlice(lines, i, shown);
  }

  lemma ProseLinesAre(lines: seq<Line>)
    requires IsLayout(Prose(lines))
    ensures All(ShownLines(lines), IsParagraphLine) && Map(ShownLines(lines), Strip) == Texts(lines)
    ensures !IsQuote(lines[0].Shown()) && !IsPipe(lines[0].Shown()) && !IsFence(lines[0].Shown())
  {
    hide IsParagraphLine, Strip, IsPipe, IsProse;
    forall k | 0 <= k < |lines|
      ensures
        var line := lines[k].Shown();
        IsParagraphLine(line) && Strip(line) == lines[k].text && !IsQuote(line) && !IsPipe(line) && !IsFence(line)
    {
      assert lines[k] in lines;
      ProseIsLaid(lines[k]);
      ProseLine(lines[k]);
      LaidLine(lines[k]);
    }
  }

  lemma ProseIsLaid(l: Line)
    requires IsProse(l)
    ensures IsLaid(l)
  {
  }

  lemma NextProseLayout(lines: seq<string>, i: nat, prose: seq<Line>)
    requires IsLayout(Prose(prose)) && Stands(lines, i, ShownLines(prose))
    ensures Next(lines, i) == Step(Some(Paragraph(JoinWith(Texts(prose), ' '))), i + |prose|)
  {
    hide IsHeading, IsRuler, MatchItem, IsPipe, JoinWith, Strip, IsProse;
    var shown := ShownLines(prose);
    ProseLinesAre(prose);
    BlankLine();
    assert lines[i + 0] == shown[0];
    SkipAt(lines, i, shown, IsParagraphLine);
    AtSlice(lines, i, shown);
    assert IsParagraphLine(lines[i]);
  }

  // ----- lists

  lemma {:induction false} JoinWithMore(parts: seq<string>, last: string)
    requires parts != []
    ensures JoinWith(parts + [last], ' ') == JoinWith(parts, ' ') + (" " + last)
    decreases |parts|
  {
    if |parts| > 1 {
      assert (parts + [last])[1..] == parts[1..] + [last];
      JoinWithMore(parts[1..], last);
    }
  }

  /** The lines that continue an item are added to its text one by one. */
  lemma {:induction false} ContinuedOver(lines: seq<string>, i: nat, more: seq<Line>, before: seq<Item>, depth: nat,
                                         parts: seq<string>)
    requires (forall l :: l in more ==> Continued(l)) && parts != [] && At(lines, i, ShownLines(more))
    ensures ListFrom(lines, i, before + [Item(depth, JoinWith(parts, ' '))])
         == ListFrom(lines, i + |more|, before + [Item(depth, JoinWith(parts + Texts(more), ' '))])
    decreases |more|
  {
    hide MatchItem, Continues, JoinWith, Strip, Continued;
    if more == [] {
      assert parts + Texts(more) == parts;
    } else {
      assert more[0] in more;
      var items := before + [Item(depth, JoinWith(parts, ' '))];
      AtTail(lines, i, ShownLines(more));
      assert ShownLines(more)[1..] == ShownLines(more[1..]);
      ContinuedLine(more[0]);
      ContinuedIsLaid(more[0]);
      LaidLine(more[0]);
      JoinWithMore(parts, more[0].text);
      var longer := parts + [more[0].text];
      assert AddToLast(items, lines[i]) == before + [Item(depth, JoinWith(longer, ' '))];
      ContinuedOver(lines, i + 1, more[1..], before, depth, longer);
      assert longer + Texts(more[1..]) == parts + Texts(more);
    }
  }

  lemma ContinuedIsLaid(l: Line)
    requires Continued(l)
    ensures IsLaid(l)
  {
  }

  lemma AtThree(lines: seq<string>, i: nat, first: string, b: seq<string>, c: seq<string>)
    requires At(lines, i, [first] + b + c)
    ensures i < |lines| && lines[i] == first && At(lines, i + 1, b) && At(lines, i + 1 + |b|, c)
  {
    AtBoth(lines, i, [first] + b, c);
    AtBoth(lines, i, [first], b);
    AtTail(lines, i, [first]);
  }

  lemma EntriesFirst(lines: seq<string>, i: nat, entries: seq<Entry>)
    requires entries != [] && At(lines, i, EntryLines(entries))
    ensures i < |lines| && lines[i] == EntryLine(entries[0])
    ensures At(lines, i + 1, ShownLines(entries[0].more))
    ensures At(lines, i + 1 + |entries[0].more|, EntryLines(entries[1..]))
  {
    hide EntryLine, At;
    AtThree(lines, i, EntryLine(entries[0]), ShownLines(entries[0].more), EntryLines(entries[1..]));
  }

  lemma {:induction false} EntriesOver(lines: seq<string>, i: nat, entries: seq<Entry>, before: seq<Item>)
    requires forall e :: e in entries ==> IsEntry(e)
    requires Stands(lines, i, EntryLines(entries))
    ensures ListFrom(lines, i, before) == Listed(before + ItemsOf(entries), i + |EntryLines(entries)|)
    decreases |entries|
  {
    hide MatchItem, JoinWith, EntryLine, Continues, IsEntry;
    if entries == [] {
      BlankLine();
      assert !Continues("") by { NotContinued(); }
      assert before + ItemsOf(entries) == before;
    } else {
      var e := entries[0];
      assert e in entries;
      EntriesFirst(lines, i, entries);
      EntryLineMatches(e);
      var after := i + 1 + |e.more|;
      assert JoinWith([e.line.text], ' ') == e.line.text by { JoinOfOne(e.line.text); }
      ContinuedEntry(e);
      ContinuedOver(lines, i + 1, e.more, before, Depth(e.indent), [e.line.text]);
      EntriesOver(lines, after, entries[1..], before + [ItemOf(e)]);
      assert before + [ItemOf(e)] + ItemsOf(entries[1..]) == before + ItemsOf(entries);
    }
  }

  lemma ContinuedEntry(e: Entry)
    requires IsEntry(e)
    ensures forall l :: l in e.more ==> Continued(l)
  {
  }

  lemma NotContinued()
    ensures !Continues("")
  {
  }

  lemma JoinOfOne(text: string)
    ensures JoinWith([text], ' ') == text
  {
  }

  lemma NextListing(lines: seq<string>, i: nat, entries: seq<Entry>)
    requires IsLayout(Listing(entries)) && Stands(lines, i, EntryLines(entries))
    ensures Next(lines, i) == Step(Some(Meaning(Listing(entries))), i + |EntryLines(entries)|)
  {
    hide IsHeading, IsRuler, MatchItem, IsPipe, IsOrdered, IsEntry, EntryLine, JoinWith, IsBlank;
    assert entries[0] in entries;
    EntriesFirst(lines, i, entries);
    EntryLineMatches(entries[0]);
    EntryLineStartsNothingElse(entries[0]);
    EntriesOver(lines, i, entries, []);
    assert [] + ItemsOf(entries) == ItemsOf(entries);
  }

  // ----- whole documents

  lemma NextLayout(lines: seq<string>, i: nat, b: Layout)
    requires IsLayout(b) && Stands(lines, i, Shown(b))
    ensures Next(lines, i) == Step(Some(Meaning(b)), i + |Shown(b)|)
  {
    hide Next, Stands;
    match b
    case Fenced(info, body, close) => NextFencedLayout(lines, i, info, body, close);
    case Titled(level, line) => NextTitledLayout(lines, i, level, line);
    case Ruled(head, ruler, rows) => NextRuledLayout(lines, i, head, ruler, rows);
    case Quoted(depths, quoted) => NextQuotedLayout(lines, i, depths, quoted);
    case Listing(entries) => NextListing(lines, i, entries);
    case Prose(prose) => NextProseLayout(lines, i, prose);
  }

  lemma ParsedAt(lines: seq<string>, i: nat, block: Block, n: nat)
    requires i + n < |lines| && lines[i + n] == "" && Next(lines, i) == Step(Some(block), i + n)
    ensures ParseFrom(lines, i) == [block] + ParseFrom(lines, i + n + 1)
  {
    hide Next;
    assert IsBlank("") by { BlankLine(); }
    BlankStep(lines, i + n);
  }

  lemma MeaningsFirst(layouts: seq<Layout>)
    requires layouts != [] && forall b :: b in layouts ==> IsLayout(b)
    ensures IsLayout(layouts[0]) && Meanings(layouts) == [Meaning(layouts[0])] + Meanings(layouts[1..])
  {
    hide Meaning, IsLayout;
    assert layouts[0] in layouts;
  }

  lemma {:induction false} LayoutsAreParsed(lines: seq<string>, i: nat, layouts: seq<Layout>)
    requires forall b :: b in layouts ==> IsLayout(b)
    requires At(lines, i, Written(layouts)) && |lines| == i + |Written(layouts)|
    ensures ParseFrom(lines, i) == Meanings(layouts)
    decreases |layouts|
  {
    hide Next, IsLayout, Shown, Meaning, At;
    if layouts != [] {
      var b, rest := layouts[0], Written(layouts[1..]);
      assert b in layouts;
      var shown := Shown(b);
      BlockIsThere(lines, i, shown, rest);
      NextLayout(lines, i, b);
      LayoutsAreParsed(lines, i + |shown| + 1, layouts[1..]);
      hide *;
      ParsedAt(lines, i, Meaning(b), |shown|);
      MeaningsFirst(layouts);
    }
  }

  lemma {:induction false} EntryLinesAreLines(entries: seq<Entry>, line: string)
    requires (forall e :: e in entries ==> IsEntry(e)) && line in EntryLines(entries)
    ensures OneLine(line)
    decreases |entries|
  {
    hide EntryLine, OneLine, IsEntry;
    var e := entries[0];
    assert e in entries;
    if line == EntryLine(e) {
      EntryIsOneLine(e);
    } else if line in ShownLines(e.more) {
      var k :| 0 <= k < |e.more| && e.more[k].Shown() == line;
      assert e.more[k] in e.more;
      ContinuedEntry(e);
      ContinuedIsLaid(e.more[k]);
      LaidLine(e.more[k]);
    } else {
      EntryLinesAreLines(entries[1..], line);
    }
  }

  lemma RuledLinesAreLines(head: seq<string>, ruler: string, rows: seq<seq<string>>, line: string)
    requires IsLayout(Ruled(head, ruler, rows)) && line in Shown(Ruled(head, ruler, rows))
    ensures OneLine(line)
  {
    hide RowLine, OneLine;
    if line == RowLine(head) {
      RowLineIsOneLine(head);
    } else if line == ruler {
      RulerLine(ruler);
    } else {
      var k :| 0 <= k < |rows| && RowLines(rows)[k] == line;
      assert rows[k] in rows;
      RowLineIsOneLine(rows[k]);
    }
  }

  lemma LayoutLinesAreLines(b: Layout, line: string)
    requires IsLayout(b) && line in Shown(b)
    ensures OneLine(line)
  {
    hide RowLine, EntryLine, IsEntry, IsProse;
    match b
    case Fenced(info, body, close) =>
      JoinedTextIsOneLine("```", info);
      JoinedTextIsOneLine("```", close);
    case Titled(level, l) => TitledLine(level, l);
    case Ruled(head, ruler, rows) => RuledLinesAreLines(head, ruler, rows, line);
    case Quoted(depths, lines) =>
      var k :| 0 <= k < |lines| && QuotedLine(depths[k], lines[k]) == line;
      assert lines[k] in lines && depths[k] in depths;
      QuotedLineText(depths[k], lines[k]);
    case Listing(entries) => EntryLinesAreLines(entries, line);
    case Prose(lines) =>
      var k :| 0 <= k < |lines| && lines[k].Shown() == line;
      assert lines[k] in lines;
      ProseIsLaid(lines[k]);
      LaidLine(lines[k]);
  }

  lemma {:induction false} WrittenLinesAreLines(layouts: seq<Layout>, line: string)
    requires forall b :: b in layouts ==> IsLayout(b)
    requires line in Written(layouts)
    ensures OneLine(line)
    decreases |layouts|
  {
    hide IsLayout, Shown;
    assert layouts[0] in layouts;
    if line in Shown(layouts[0]) {
      LayoutLinesAreLines(layouts[0], line);
    } else if line in Written(layouts[1..]) {
      WrittenLinesAreLines(layouts[1..], line);
    }
  }

  /** A handwritten document, with its blocks over any number of lines, is read as its blocks: lines of
      a paragraph, a quote or an item are one text, indentation makes the depth, digits make a numbered
      list, and the fences of code and the ruler of a table leave no trace. */
  lemma HandwrittenDocumentIsRead(layouts: seq<Layout>)
    requires forall b :: b in layouts ==> IsLayout(b)
    ensures ParseText(WriteLines(Written(layouts))) == Meanings(layouts)
  {
    hide Written, Meanings;
    forall line | line in Written(layouts)
      ensures OneLine(line)
    {
      WrittenLinesAreLines(layouts, line);
    }
    WrittenLines(Written(layouts));
    LayoutsAreParsed(Written(layouts), 0, layouts);
  }

  // ----- lines that look like something else

  /** Seven number signs, or none before a blank, make no heading: the line is a paragraph's. */
  lemma NoHeadingIsProse(level: nat, rest: string)
    requires level > 6 || (rest != "" ==> !IsSpace(rest[0]))
    requires level > 0 && (rest != "" ==> rest[0] != '#')
    ensures IsParagraphLine(Repeat('#', level) + rest)
  {
    var line := Repeat('#', level) + rest;
    assert At(line, 0, Repeat('#', level)) && line[0] == '#';
    assert rest != "" ==> line[level] == rest[0];
    SkipAt(line, 0, Repeat('#', level), IsHash);
    NotBlank(line);
  }

  /** A fence that is never closed takes the rest of the document. */
  lemma OpenFenceTakesTheRest(lines: seq<string>, i: nat)
    requires i < |lines| && "```" <= lines[i] && forall k :: i < k < |lines| ==> !("```" <= lines[k])
    ensures ParseFrom(lines, i) == [Code(if i + 1 == |lines| then "" else JoinWith(lines[i + 1..], '\n'))]
  {
    hide Next, JoinWith;
    var rest := lines[i + 1..];
    SkipAt(lines, i + 1, rest, NoFence);
    assert lines[i + 1..|lines|] == rest;
    FenceStep(lines, i, |lines|);
  }

  /** A line that starts with a bar opens no table without a ruler below; it is a paragraph alone. */
  lemma LoneBarIsProse(lines: seq<string>, i: nat, l: Line)
    requires i < |lines| && lines[i] == l.Shown() && IsLaid(l) && l.text != "" && l.text[0] == '|'
    requires i + 1 < |lines| ==> !IsRuler(lines[i + 1])
    ensures Next(lines, i) == Step(Some(Paragraph(l.text)), i + 1)
  {
    hide IsRuler, Strip;
    FirstOfLine(l);
    NoItem(l);
    LaidLine(l);
    assert lines[i][0] == if l.before == "" then '|' else l.before[0];
    OtherStart(lines[i]);
  }

  /** A line behind a paragraph, a table or a list ends it by what its text starts with: a quote, a
      bar, an item, a heading and a fence end a paragraph, any text without a bar ends a table, and
      text that is not indented ends a list. */
  lemma LineThatEnds(l: Line)
    requires IsLaid(l) && l.text != ""
    ensures l.text[0] == '|' ==> !IsParagraphLine(l.Shown())
    ensures l.before == "" && l.text[0] == '>' ==> !IsParagraphLine(l.Shown())
    ensures l.before == "" && "```" <= l.text ==> !IsParagraphLine(l.Shown())
    ensures l.text[0] != '|' ==> !IsPipe(l.Shown())
    ensures l.before == "" ==> !Continues(l.Shown())
    ensures l.before == "" && l.text[0] != '>' ==> !IsQuote(l.Shown())
  {
    hide IsHeading, MatchItem, IsBlank, StripLeft;
    FirstOfLine(l);
    assert l.before == "" ==> l.Shown() == l.text + l.after;
    assert "```" <= l.text ==> "```" <= l.text + l.after;
  }

  lemma BlankLineEnds(s: string)
    requires IsBlankText(s)
    ensures IsBlank(s) && !Continues(s) && !IsParagraphLine(s) && !IsPipe(s) && !IsQuote(s)
  {
    assert s + ("" + "") == s;
    TrimmedTextComesBack(s, "", "");
    StripLeftOfPadded(s, "");
    assert s + "" == s;
  }

  /** A marker without a blank behind it makes no item. */
  lemma MarkerNeedsBlank(blanks: string, m: Marker, rest: string)
    requires IsBlankText(blanks) && IsMarker(m) && (rest != "" ==> !IsSpace(rest[0]))
    ensures MatchItem(blanks + (m.Shown() + rest)) == None
  {
    var line, i := blanks + (m.Shown() + rest), |blanks|;
    MarkerEndsAt(blanks, m.Shown(), rest);
    assert MarkerEnd(line, i) == i + |m.Shown()| by {
      if m.Number? {
        assert m.Shown() + rest == m.digits + ("." + rest);
        NumberEnds(line, i, m.digits, "." + rest);
      }
    }
    NoBlankNoItem(line, i, i + |m.Shown()|);
  }

  /** Digits without a full stop make none either. */
  lemma NumberNeedsStop(blanks: string, digits: string, rest: string)
    requires IsBlankText(blanks) && IsMarker(Number(digits)) && (rest != "" ==> rest[0] != '.' && !IsDecimal(rest[0]))
    ensures MatchItem(blanks + (digits + rest)) == None
  {
    MarkerEndsAt(blanks, digits, rest);
    NumberEnds(blanks + (digits + rest), |blanks|, digits, rest);
    NoBlankNoItem(blanks + (digits + rest), |blanks|, |blanks|);
  }

  lemma NoBlankNoItem(line: string, indent: nat, end: nat)
    requires Skip(line, 0, IsSpace) == indent && indent <= |line| && MarkerEnd(line, indent) == end
    requires end == indent || end == |line| || !IsSpace(line[end])
    ensures MatchItem(line) == None
  {
  }

  lemma MarkerEndsAt(blanks: string, marker: string, rest: string)
    requires IsBlankText(blanks) && marker != "" && !IsSpace(marker[0])
    ensures
      var line := blanks + (marker + rest);
      && Skip(line, 0, IsSpace) == |blanks| < |line| && line[|blanks|] == marker[0]
      && line[|blanks| + |marker|..] == rest && line[|blanks|..] == marker + rest
  {
    var line := blanks + (marker + rest);
    assert At(line, 0, blanks) && line[|blanks|] == marker[0];
    SkipAt(line, 0, blanks, IsSpace);
  }

  lemma NumberEnds(line: string, i: nat, digits: string, rest: string)
    requires i <= |line| && line[i..] == digits + rest && digits != "" && (rest != "" ==> !IsDecimal(rest[0]))
    requires forall k :: 0 <= k < |digits| ==> '0' <= digits[k] <= '9'
    ensures MarkerEnd(line, i) == if rest != "" && rest[0] == '.' then i + |digits| + 1 else i
  {
    forall k | 0 <= k < |digits + rest|
      ensures line[i + k] == (digits + rest)[k]
    {
      assert line[i..][k] == line[i + k];
    }
    assert At(line, i, digits);
    assert rest != "" ==> line[i + |digits|] == rest[0];
    SkipAt(line, i, digits, IsDecimal);
    assert line[i] == digits[0];
  }

  lemma HeadingAndItemEndProse(level: nat, l: Line, e: Entry)
    requires 1 <= level <= 6 && IsLaid(l) && l.before != "" && IsEntry(e)
    ensures !IsParagraphLine(Repeat('#', level) + l.Shown()) && !IsParagraphLine(EntryLine(e))
  {
    hide IsHeading, MatchItem, EntryLine;
    TitledLine(level, l);
    EntryLineMatches(e);
  }

  /** A ruler starts and ends with a bar and has only bars, dashes, colons and blanks between, at least one. */
  lemma RulerIff(before: string, s: string, after: string)
    requires IsBlankText(before) && IsBlankText(after) && IsTrimmed(s)
    ensures IsRuler(before + (s + after)) <==>
      && |s| >= 3 && s[0] == '|' && s[|s| - 1] == '|'
      && forall k :: 0 < k < |s| - 1 ==> s[k] == '|' || s[k] == '-' || s[k] == ':' || IsSpace(s[k])
  {
    TrimmedTextComesBack(before, s, after);
    if |s| >= 3 {
      assert forall k :: 0 < k < |s| - 1 ==> s[1..|s| - 1][k - 1] == s[k];
    }
  }
}
