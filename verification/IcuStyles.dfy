/** Styles the argument scanner leaves at the wrong brace, and a message that shows it. */
module IcuStyles {
  import opened Wrappers
  import opened Text
  import opened IcuArguments
  import opened IcuMessages
  import opened IcuQuotes

  // ----- styles

  /** The scanner leaves the argument behind its own brace if and only if all braces of the style,
      quoted ones included, balance; this holds whatever the text goes on with. */
  lemma {:induction false} StyleClosesIff(text: string, i: nat, style: string, depth: nat)
    requires At(text, i, style + "}") && depth > 0 && i + |style| + 1 < |text|
    ensures Close(text, i, depth) == i + |style| + 1 <==> Balanced(style, depth)
    ensures Close(text, i, depth) > i
    decreases |style|
  {
    AtTail(text, i, style + "}");
    if style == "" {
      assert Close(text, i, depth) == Close(text, i + 1, depth - 1);
      if depth > 1 {
        CloseMoves(text, i + 1, depth - 1);
      }
    } else {
      assert (style + "}")[1..] == style[1..] + "}";
      var next := if style[0] == '{' then depth + 1 else if style[0] == '}' then depth - 1 else depth;
      assert Close(text, i, depth) == Close(text, i + 1, next);
      if next > 0 {
        StyleClosesIff(text, i + 1, style[1..], next);
      }
    }
  }

  lemma CloseMoves(text: string, i: nat, depth: nat)
    requires i < |text| && depth > 0
    ensures Close(text, i, depth) > i
  {
  }

  // ----- the message around a style: {n,select,a{{n,date,STYLE}{x}}b{y}}

  /** The text from the brace at `e` that should end the style: `}{x}}b{y}}` with `n` letters for `x`. */
  predicate IsDen(text: string, e: nat, n: nat) {
    && |text| == e + n + 9 && n > 7
    && text[e] == '}' && text[e + 1] == '{' && (forall k :: e + 2 <= k < e + 2 + n ==> text[k] == 'x')
    && text[e + n + 2] == '}' && text[e + n + 3] == '}' && text[e + n + 4] == 'b'
    && text[e + n + 5] == '{' && text[e + n + 6] == 'y' && text[e + n + 7] == '}' && text[e + n + 8] == '}'
  }

  predicate HasShort(names: set<string>, n: nat) { exists name :: name in names && |name| <= n }

  /** No name has exactly `n` characters. */
  predicate Misses(names: set<string>, n: nat) { forall name :: name in names ==> |name| != n }

  lemma HeadIsInside(text: string, i: nat)
    requires i < |text| && MatchHead(text, i).Head?
    ensures i < MatchHead(text, i).end && |MatchHead(text, i).name| < |text| - i
  {
  }

  /** A name found from `i` on stands in the text after `i`. */
  lemma {:induction false} NamesAreInside(text: string, i: nat, stop: bool)
    requires i <= |text|
    ensures Short(Parse(text, i, stop).names, |text| - i)
    decreases |text| - i, 1
  {
    if i == |text| {
    } else if OpensQuote(text, i) {
      NamesAreInside(text, AfterQuote(text, i), stop);
    } else if text[i] == '}' && stop {
    } else if text[i] == '{' && MatchHead(text, i).Head? {
      var h := MatchHead(text, i);
      HeadIsInside(text, i);
      ArgumentNamesAreInside(text, h);
      var next := Argument(text, h).end;
      if next <= |text| {
        NamesAreInside(text, next, stop);
      }
    } else {
      NamesAreInside(text, i + 1, stop);
    }
  }

  lemma {:induction false} ArgumentNamesAreInside(text: string, h: Head)
    requires h.Head? && h.end <= |text|
    ensures Short(Argument(text, h).names, |text| - h.end)
    decreases |text| - h.end, 2
  {
    if IsBranching(h) {
      BranchNamesAreInside(text, AfterComma(text, h.end));
    }
  }

  lemma {:induction false} BranchNamesAreInside(text: string, i: nat)
    requires i <= |text|
    ensures Short(Branches(text, i).names, |text| - i)
    decreases |text| - i, 0
  {
    if i == |text| || text[i] == '}' {
    } else if text[i] == '{' {
      NamesAreInside(text, i + 1, true);
      var next := Parse(text, i + 1, true).end + 1;
      if next <= |text| {
        BranchNamesAreInside(text, next);
      }
    } else {
      BranchNamesAreInside(text, i + 1);
    }
  }

  /** Behind the brace of `{x}` no name of its length is left. */
  lemma {:induction false} NothingAfterDen(text: string, e: nat, n: nat, i: nat, stop: bool)
    requires IsDen(text, e, n) && e + 2 <= i
    ensures Misses(Parse(text, i, stop).names, n) && Misses(Branches(text, i).names, n)
    decreases |text| - i
  {
    if i < e + n + 2 {
      NothingAfterDen(text, e, n, i + 1, stop);
    } else if i <= |text| {
      NamesAreInside(text, i, stop);
      BranchNamesAreInside(text, i);
    }
  }

  lemma {:induction false} SkipsDen(text: string, e: nat, n: nat, i: nat)
    requires IsDen(text, e, n) && e <= i <= |text|
    ensures Skip(text, i, NotApostrophe) == |text|
    decreases |text| - i
  {
    if i < |text| {
      SkipsDen(text, e, n, i + 1);
    }
  }

  lemma {:induction false} SkipNearDen(text: string, e: nat, n: nat, i: nat)
    requires IsDen(text, e, n) && i <= e
    ensures Skip(text, i, NotApostrophe) < e || Skip(text, i, NotApostrophe) == |text|
    decreases e - i
  {
    if i == e {
      SkipsDen(text, e, n, e);
    } else if NotApostrophe(text[i]) {
      SkipNearDen(text, e, n, i + 1);
    }
  }

  lemma QuoteNearDen(text: string, e: nat, n: nat, i: nat)
    requires IsDen(text, e, n) && i < e && OpensQuote(text, i)
    ensures AfterQuote(text, i) <= e || AfterQuote(text, i) == |text|
  {
    SkipNearDen(text, e, n, i + 1);
  }

  /** What the rest of a style does to a scan that ends at a closing brace: a spurious name, a jump
      over the argument `{x}`, or an end at a brace in front of it. */
  predicate Derails(r: Found, text: string, e: nat, n: nat, l: nat) {
    || HasShort(r.names, l)
    || (Misses(r.names, n) && r.end >= e + 2)
    || (r.names == {} && r.end <= e < |text| && text[r.end] == '}')
  }

  lemma {:induction false} BodyDerails(text: string, e: nat, n: nat, l: nat, i: nat)
    requires IsDen(text, e, n) && i <= e <= i + l
    ensures Derails(Parse(text, i, true), text, e, n, l)
    decreases e - i
  {
    hide MatchHead, Argument, Branches, Skip;
    if i == e {
    } else if OpensQuote(text, i) {
      QuoteNearDen(text, e, n, i);
      if AfterQuote(text, i) <= e {
        BodyDerails(text, e, n, l, AfterQuote(text, i));
      }
    } else if text[i] == '}' {
    } else if text[i] == '{' && MatchHead(text, i).Head? {
      HeadBefore(text, i, e);
      assert MatchHead(text, i).name in Parse(text, i, true).names;
    } else {
      BodyDerails(text, e, n, l, i + 1);
    }
  }

  lemma AfterOwnBrace(text: string, e: nat, n: nat)
    requires IsDen(text, e, n)
    ensures Misses(Branches(text, e + 1).names, n) && Branches(text, e + 1).end >= e + 2
  {
    NothingAfterDen(text, e, n, e + 2, true);
    NothingAfterDen(text, e, n, Parse(text, e + 2, true).end + 1, true);
  }

  lemma {:induction false} BranchesDerail(text: string, e: nat, n: nat, l: nat, i: nat)
    requires IsDen(text, e, n) && i <= e <= i + l
    ensures Derails(Branches(text, i), text, e, n, l)
    decreases e - i
  {
    hide Parse;
    if text[i] == '}' {
    } else if text[i] == '{' {
      hide Branches, IsDen;
      var body := Parse(text, i + 1, true);
      BodyStep(text, i);
      BodyDerails(text, e, n, l, i + 1);
      if body.end >= e + 2 {
        NothingAfterDen(text, e, n, body.end + 1, true);
      } else if body.end == e {
        AfterOwnBrace(text, e, n);
      } else if body.end < e {
        BranchesDerail(text, e, n, l, body.end + 1);
      }
    } else {
      SelectorStep(text, i);
      BranchesDerail(text, e, n, l, i + 1);
    }
  }

  /** Outside the argument `{x}` is found, but then so is the literal text `y`. */
  lemma {:induction false} TopDerails(text: string, e: nat, n: nat, l: nat, i: nat)
    requires IsDen(text, e, n) && i <= e + 1 <= i + l + 1 && l > 0
    ensures var names := Parse(text, i, false).names; HasShort(names, l) || Misses(names, n)
    decreases e + 1 - i
  {
    hide MatchHead, Argument, Branches, Skip;
    if i == e + 1 {
      LiteralIsTaken(text, e, n);
    } else if i == e {
      TopDerails(text, e, n, l, e + 1);
    } else if OpensQuote(text, i) {
      QuoteNearDen(text, e, n, i);
      if AfterQuote(text, i) <= e {
        TopDerails(text, e, n, l, AfterQuote(text, i));
      }
    } else if text[i] == '{' && MatchHead(text, i).Head? {
      HeadBefore(text, i, e);
      assert MatchHead(text, i).name in Parse(text, i, false).names;
    } else {
      TopDerails(text, e, n, l, i + 1);
    }
  }

  lemma LiteralIsTaken(text: string, e: nat, n: nat)
    requires IsDen(text, e, n)
    ensures "y" in Parse(text, e + 1, false).names
  {
    hide *;
    DenEnds(text, e, n);
    LongName(n);
    DenWords(text, e, n);
    BareNameAt(text, e + 1, Repeat('x', n));
    BareNameAt(text, e + n + 5, "y");
    PassedAtTop(text, e + n + 3);
    PassedAtTop(text, e + n + 4);
  }

  lemma DenWords(text: string, e: nat, n: nat)
    requires IsDen(text, e, n)
    ensures At(text, e + 2, Repeat('x', n)) && At(text, e + n + 6, "y") && IsName("y")
  {
  }

  lemma PassedAtTop(text: string, i: nat)
    requires i < |text| && text[i] != '\'' && text[i] != '{'
    ensures Parse(text, i, false) == Parse(text, i + 1, false)
  {
  }

  lemma BareNameAt(text: string, i: nat, word: string)
    requires i + |word| + 1 < |text| && text[i] == '{' && At(text, i + 1, word) && text[i + 1 + |word|] == '}'
    requires IsName(word)
    ensures Parse(text, i, false).names == {word} + Parse(text, i + |word| + 2, false).names
  {
    hide *;
    BracedAt(text, i, word);
    BareIsPadded(word);
    PastBare(i + 1, word);
    ParseOverSimple(text, i, false, Bare(word));
    NamesScanned(text, i, i + |word| + 2, {word});
  }

  lemma PastBare(i: nat, word: string)
    ensures PastPadded(i, Bare(word)) == i + |word|
  {
  }

  lemma NamesScanned(text: string, i: nat, end: nat, names: set<string>)
    requires ScannedOver(text, i, false, end, names)
    ensures Parse(text, i, false).names == names + Parse(text, end, false).names
  {
  }

  lemma DenEnds(text: string, e: nat, n: nat)
    requires IsDen(text, e, n)
    ensures n > 7 && |text| == e + n + 9 && text[e + 1] == '{' && text[e + n + 2] == '}' && text[e + n + 3] == '}'
    ensures text[e + n + 4] == 'b' && text[e + n + 5] == '{' && text[e + n + 6] == 'y' && text[e + n + 7] == '}'
  {
  }

  lemma BracedAt(text: string, i: nat, word: string)
    requires i + |word| + 1 < |text| && text[i] == '{' && At(text, i + 1, word) && text[i + 1 + |word|] == '}'
    ensures At(text, i, "{" + (word + "}"))
  {
    AtAppended(text, i + 1, word, "}");
    AtAppended(text, i, "{", word + "}");
  }

  /** Wherever the argument is left other than at its own brace, the names come out wrong. */
  lemma RestDerails(text: string, e: nat, n: nat, l: nat, c: nat)
    requires IsDen(text, e, n) && l > 0 && c != e + 1 && e <= c + l
    ensures
      var body := Parse(text, c, true);
      var more := Branches(text, body.end + 1);
      var top := Parse(text, more.end + 1, false);
      var names := body.names + more.names + top.names;
      HasShort(names, l) || Misses(names, n)
  {
    hide IsDen, Parse, Branches;
    var body := Parse(text, c, true);
    var more := Branches(text, body.end + 1);
    if c >= e + 2 {
      NothingAfterDen(text, e, n, c, true);
    } else {
      BodyDerails(text, e, n, l, c);
    }
    if body.end >= e + 2 {
      NothingAfterDen(text, e, n, body.end + 1, true);
    } else if body.end < e {
      BranchesDerail(text, e, n, l, body.end + 1);
    } else if body.end == e {
      AfterOwnBrace(text, e, n);
    }
    if more.end >= e + 2 {
      NothingAfterDen(text, e, n, more.end + 1, false);
    } else if more.end <= e {
      TopDerails(text, e, n, l, more.end + 1);
    }
  }

  function StyleBody(style: string, n: nat): Message {
    Then(Typed(Bare(Repeat('x', n + 1)), Bare("date"), style), LastArgument(n))
  }

  const LAST_CASE := Case("b", Then(Literal("y"), End), Last(""))

  function Den(style: string, n: nat): Message {
    Then(Branching(Bare(Repeat('x', n + 1)), Bare("select"), Case("a", StyleBody(style, n), LAST_CASE)), End)
  }

  lemma KindsOfDen()
    ensures IsKind(Bare("select")) && "select" in BRANCHING && PrintPadded(Bare("select")) == "select"
    ensures IsKind(Bare("date")) && "date" !in BRANCHING && PrintPadded(Bare("date")) == "date"
  {
  }

  lemma DateIsFlat()
    ensures IsFlatKind("date") && ParentOf("select") == Select
  {
    assert |"date"| == 4 && |"plural"| == 6 && |"select"| == 6 && |"selectordinal"| == 13 && |"choice"| == 6;
  }

  lemma LastCaseFacts()
    ensures CasesHaveShape(LAST_CASE, Select) && CaseTexts(LAST_CASE) == NO_TEXTS && CaseNames(LAST_CASE) == {}
  {
    var body := Then(Literal("y"), End);
    assert HasShape(body, Select, false) && TextsOf(body) == NO_TEXTS && Names(body) == {};
  }

  lemma StyleBodyHasShape(style: string, n: nat)
    requires n > 0 && (style != "" ==> style[0] == ',') && IsStyle(style, 0, false)
    ensures HasShape(StyleBody(style, n), Select, false)
  {
    LongName(n + 1);
    NameIsIdentifier(Repeat('x', n + 1));
    BareIsPadded(Repeat('x', n + 1));
    LongArgument(n, Select, false);
    KindsOfDen();
    DateIsFlat();
    hide Repeat, IsName, IsIdentifier, IsKind, IsFlatKind, IsPadded, IsStyle, LastArgument;
    assert PartHasShape(StyleBody(style, n).part, Select);
  }

  lemma StyleBodyFacts(style: string, n: nat)
    requires n > 0
    ensures TextsOf(StyleBody(style, n)) == Texts({Repeat('x', n + 1), Repeat('x', n)}, {}, {style}, {})
    ensures Names(StyleBody(style, n)) == {Repeat('x', n + 1), Repeat('x', n)}
  {
    LongArgument(n, Select, false);
    hide Repeat, LastArgument, HasShape, AreSafe;
    assert PartNames(StyleBody(style, n).part) == {Repeat('x', n + 1)};
    assert PartTexts(StyleBody(style, n).part) == Texts({Repeat('x', n + 1)}, {}, {style}, {});
  }

  lemma DenHasShape(style: string, n: nat)
    requires n > 0 && (style != "" ==> style[0] == ',') && IsStyle(style, 0, false)
    ensures HasShape(Den(style, n), Top, false)
  {
    LongName(n + 1);
    NameIsIdentifier(Repeat('x', n + 1));
    BareIsPadded(Repeat('x', n + 1));
    KindsOfDen();
    DateIsFlat();
    LastCaseFacts();
    StyleBodyHasShape(style, n);
    hide Repeat, IsName, IsIdentifier, IsKind, IsPadded, IsStyle, StyleBody, IsFlatKind;
    assert CasesHaveShape(Case("a", StyleBody(style, n), LAST_CASE), Select);
    LonePart(Den(style, n).part, Top, false);
  }

  lemma DenTexts(style: string, n: nat)
    requires n > 0
    ensures TextsOf(Den(style, n)) == Texts({Repeat('x', n + 1), Repeat('x', n)}, {}, {style}, {})
  {
    LastCaseFacts();
    StyleBodyFacts(style, n);
    LonePart(Den(style, n).part, Top, false);
    hide Repeat, StyleBody, HasShape, CasesHaveShape, TextsOf, Names;
    assert CaseTexts(Case("a", StyleBody(style, n), LAST_CASE))
        == Texts({Repeat('x', n + 1), Repeat('x', n)}, {}, {style}, {});
  }

  lemma DenNames(style: string, n: nat)
    requires n > 0
    ensures Names(Den(style, n)) == {Repeat('x', n + 1), Repeat('x', n)}
  {
    LastCaseFacts();
    StyleBodyFacts(style, n);
    LonePart(Den(style, n).part, Top, false);
    hide Repeat, StyleBody, HasShape, CasesHaveShape, TextsOf, Names, CaseTexts;
  }

  lemma LastCaseIsPrinted()
    ensures PrintCases(LAST_CASE) == "b{y}"
  {
    assert Print(Then(Literal("y"), End)) == "y";
    assert PrintCases(Last("")) == "";
  }

  function SelectText(name: string, cases: string): string {
    "{" + (name + ("," + ("select" + ("," + (cases + "}")))))
  }

  function FirstCase(body: string, last: string): string { "a" + ("{" + (body + ("}" + last))) }

  function DateText(name: string, style: string): string { "{" + (name + ("," + ("date" + (style + "}")))) }

  lemma BodyIsPrinted(style: string, n: nat)
    requires n > 0
    ensures Print(StyleBody(style, n)) == DateText(Repeat('x', n + 1), style) + ("{" + (Repeat('x', n) + "}"))
  {
    LongName(n + 1);
    LongArgument(n, Select, false);
    KindsOfDen();
    hide Repeat, LastArgument;
    var body := StyleBody(style, n);
    assert Print(body) == PrintPart(body.part) + Print(LastArgument(n));
  }

  lemma FirstCaseIsPrinted(body: Message)
    ensures PrintCases(Case("a", body, LAST_CASE)) == FirstCase(Print(body), "b{y}")
  {
    LastCaseIsPrinted();
    hide Print;
  }

  lemma SelectIsPrinted(name: string, cases: Cases)
    ensures Print(Then(Branching(Bare(name), Bare("select"), cases), End)) == SelectText(name, PrintCases(cases))
  {
    LonePart(Branching(Bare(name), Bare("select"), cases), Top, false);
    BareIsPadded(name);
    BareIsPadded("select");
    hide Print, PrintCases, PrintPadded;
  }

  lemma DenIsPrinted(style: string, n: nat)
    requires n > 0
    ensures
      var name, x := Repeat('x', n + 1), Repeat('x', n);
      Print(Den(style, n)) == SelectText(name, FirstCase(DateText(name, style) + ("{" + (x + "}")), "b{y}"))
  {
    BodyIsPrinted(style, n);
    FirstCaseIsPrinted(StyleBody(style, n));
    SelectIsPrinted(Repeat('x', n + 1), Case("a", StyleBody(style, n), LAST_CASE));
    hide Repeat, StyleBody, Print, PrintCases, SelectText, FirstCase, DateText;
  }

  lemma SelectAt(text: string, name: string, cases: string)
    requires IsName(name) && text == SelectText(name, cases)
    ensures
      var s := |name| + 9;
      && text[0] == '{' && MatchHead(text, 0) == Head(name, Some("select"), s - 1) && AfterComma(text, s - 1) == s
      && At(text, s, cases + "}") && |text| == s + |cases| + 1
  {
    KindsOfDen();
    BareIsPadded(name);
    assert At(text, 0, text);
    BranchingAt(text, 0, Bare(name), Bare("select"), cases);
  }

  lemma FirstCaseAt(text: string, s: nat, body: string, last: string)
    requires At(text, s, FirstCase(body, last) + "}")
    ensures
      var close := s + 2 + |body|;
      && |FirstCase(body, last)| == |body| + |last| + 3 && close + 1 + |last| < |text|
      && text[s] == 'a' && text[s + 1] == '{' && At(text, s + 2, body)
      && text[close] == '}' && At(text, close + 1, last) && text[close + 1 + |last|] == '}'
  {
    CasesAt(text, s, FirstCase(body, last));
    CaseAt(text, s, "a", body, last);
    FirstAt(text, s, "a");
  }

  lemma DateTextIs(name: string, style: string, i: nat)
    requires style != "" && style[0] == ','
    ensures DateText(name, style) == "{" + (name + ("," + ("date" + (style + "}"))))
    ensures HeadEnd(i, Bare(name), Bare("date")) == i + |name| + 6
    ensures PastPadded(i + 1, Bare(name)) == i + 1 + |name|
    ensures (style + "}")[0] == ',' && EndsHead(',')
  {
    BareIsPadded(name);
    BareIsPadded("date");
    hide PrintPadded, Bare;
  }

  lemma DateAt(text: string, i: nat, name: string, style: string, after: string)
    requires IsName(name) && style != "" && style[0] == ',' && At(text, i, DateText(name, style) + after)
    ensures
      var end := i + |name| + 6;
      && |DateText(name, style)| == |name| + |style| + 7
      && text[i] == '{' && MatchHead(text, i) == Head(name, Some("date"), end)
      && At(text, end, style + "}") && At(text, end + |style| + 1, after)
  {
    hide *;
    KindsOfDen();
    BareIsPadded(name);
    BareIsPadded("date");
    DateTextIs(name, style, i);
    AtBoth(text, i, DateText(name, style), after);
    HeadAt(text, i, name, "date", style + "}");
    TypedHead(text, i, Bare(name), Bare("date"));
  }

  /** Where the pieces of the message stand: its cases at `s`, and the brace after the style at `e`. */
  lemma DenLaidOut(text: string, style: string, n: nat, s: nat, e: nat)
    requires n > 7 && style != "" && style[0] == ',' && text == Print(Den(style, n))
    requires s == n + 10 && e == s + n + 9 + |style|
    ensures IsDen(text, e, n) && At(text, e - |style|, style + "}")
    ensures text[0] == '{' && text[s] == 'a' && text[s + 1] == '{' && text[s + 2] == '{'
    ensures MatchHead(text, 0) == Head(Repeat('x', n + 1), Some("select"), s - 1) && AfterComma(text, s - 1) == s
    ensures MatchHead(text, s + 2) == Head(Repeat('x', n + 1), Some("date"), e - |style|)
  {
    hide *;
    var name, x := Repeat('x', n + 1), Repeat('x', n);
    DenIsPrinted(style, n);
    LongName(n + 1);
    LongName(n);
    var body := DateText(name, style) + ("{" + (x + "}"));
    SelectAt(text, name, FirstCase(body, "b{y}"));
    FirstCaseAt(text, s, body, "b{y}");
    DateAt(text, s + 2, name, style, "{" + (x + "}"));
    SimpleAt(text, e + 1, x);
    DenParts(text, style, e, n);
  }

  lemma DenParts(text: string, style: string, e: nat, n: nat)
    requires n > 7 && |text| == e + n + 9 && |style| <= e && At(text, e - |style|, style + "}")
    requires text[e + 1] == '{' && At(text, e + 2, Repeat('x', n)) && text[e + n + 2] == '}'
    requires text[e + n + 3] == '}' && At(text, e + n + 4, "b{y}") && text[e + n + 8] == '}'
    ensures IsDen(text, e, n)
  {
    AtBoth(text, e - |style|, style, "}");
    FirstAt(text, e, "}");
    forall k | e + 2 <= k < e + 2 + n
      ensures text[k] == 'x'
    {
      assert text[e + 2 + (k - e - 2)] == Repeat('x', n)[k - e - 2];
    }
    var last := "b{y}";
    assert text[e + n + 4 + 0] == last[0] && text[e + n + 4 + 1] == last[1];
    assert text[e + n + 4 + 2] == last[2] && text[e + n + 4 + 3] == last[3];
  }

  /** The scan of a case body that starts with an argument of another kind. */
  lemma ScanOfNested(text: string, s: nat, outer: Head, inner: Head)
    requires s + 2 < |text| && text[0] == '{' && MatchHead(text, 0) == outer && outer.Head? && IsBranching(outer)
    requires AfterComma(text, outer.end) == s && text[s] == 'a' && text[s + 1] == '{' && text[s + 2] == '{'
    requires MatchHead(text, s + 2) == inner && inner.Head? && !IsBranching(inner)
    ensures
      var body := Parse(text, Close(text, inner.end, 1), true);
      var more := Branches(text, body.end + 1);
      var top := Parse(text, more.end + 1, false);
      Parse(text, 0, false).names == {outer.name, inner.name} + (body.names + more.names + top.names)
  {
    hide MatchHead, Parse, Branches, Close;
    HeadStep(text, 0, false);
    SelectorStep(text, s);
    BodyStep(text, s + 1);
    HeadStep(text, s + 2, true);
  }

  /** Around a style whose braces do not balance, the scanner reports other names. */
  lemma BadStyleGivesWrongNames(style: string)
    requires style != "" && style[0] == ',' && !Balanced(style, 1)
    ensures !NamesAreFound(Den(style, |style| + 8))
  {
    hide *;
    var l, n := |style|, |style| + 8;
    var text, s, e := Print(Den(style, n)), n + 10, n + 10 + n + 9 + l;
    DenNames(style, n);
    LongName(n);
    LongName(n + 1);
    DenLaidOut(text, style, n, s, e);
    DenEnds(text, e, n);
    DenBranches(Repeat('x', n + 1), s - 1, e - l);
    StyleClosesIff(text, e - l, style, 1);
    KindsOfDen();
    ScanOfNested(text, s, MatchHead(text, 0), MatchHead(text, s + 2));
    RestDerails(text, e, n, l, Close(text, e - l, 1));
    var body := Parse(text, Close(text, e - l, 1), true);
    var more := Branches(text, body.end + 1);
    var top := Parse(text, more.end + 1, false);
    WrongNames(body.names + more.names + top.names, Repeat('x', n + 1), Repeat('x', n), l);
    NotFound(Den(style, n));
  }

  lemma NotFound(m: Message)
    requires Parse(Print(m), 0, false).names != Names(m)
    ensures !NamesAreFound(m)
  {
  }

  lemma DenBranches(name: string, outer: nat, inner: nat)
    ensures IsBranching(Head(name, Some("select"), outer)) && !IsBranching(Head(name, Some("date"), inner))
  {
  }

  lemma WrongNames(others: set<string>, name: string, x: string, l: nat)
    requires HasShort(others, l) || Misses(others, |x|)
    requires l < |x| < |name|
    ensures {name, name} + others != {name, x}
  {
    if HasShort(others, l) {
      var short :| short in others && |short| <= l;
      assert short in {name, name} + others && short !in {name, x};
    } else {
      assert x !in {name, name} + others;
    }
  }
}
