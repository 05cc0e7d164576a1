/** Where the argument scanner goes wrong: the exact condition on names, quoted texts, styles and choices. */
module IcuLimits {
  import opened Wrappers
  import opened Text
  import opened IcuArguments
  import opened IcuMessages
  import opened IcuQuotes
  import opened IcuStyles

  // ----- names

  lemma {:induction false} NothingInWord(text: string, i: nat)
    requires forall k :: i <= k < |text| ==> IsWord(text[k]) || text[k] == '}'
    ensures Parse(text, i, false).names == {}
    decreases |text| - i
  {
    if i < |text| {
      NothingInWord(text, i + 1);
    }
  }

  function OneArgument(word: string): Message { Then(Simple(Bare(word)), End) }

  lemma OneArgumentFacts(word: string)
    requires IsIdentifier(word)
    ensures HasShape(OneArgument(word), Top, false) && TextsOf(OneArgument(word)) == NO_TEXTS.(names := {word})
    ensures Names(OneArgument(word)) == {word} && Print(OneArgument(word)) == "{" + (word + "}")
  {
    BareIsPadded(word);
    LonePart(Simple(Bare(word)), Top, false);
    hide IsIdentifier, IsPadded, PrintPadded, Names, TextsOf, Print, HasShape;
  }

  /** The scanner reports no name that starts with a digit or beyond ASCII. */
  lemma UnknownNameIsMissed(word: string)
    requires IsIdentifier(word) && !IsName(word)
    ensures Parse("{" + (word + "}"), 0, false).names == {}
  {
    var text := "{" + (word + "}");
    assert text[1] == word[0] && !IsSpace(text[1]) && !IsNameStart(text[1]);
    assert MatchHead(text, 0) == NoHead;
    NothingInWord(text, 1);
  }

  // ----- choices

  function OneChoice(name: string, c: Choices): Message { Then(Choice(Bare(name), Bare("choice"), c), End) }

  lemma OneChoiceFacts(name: string, c: Choices)
    requires IsName(name) && ChoicesHaveShape(c) && Balanced(ChoiceStyle(c), 1)
    ensures HasShape(OneChoice(name, c), Top, false)
    ensures TextsOf(OneChoice(name, c)) == Texts({name}, {}, {}, {c})
    ensures Names(OneChoice(name, c)) == {name} + ChoiceNames(c)
  {
    NameIsIdentifier(name);
    BareIsPadded(name);
    BareIsPadded("choice");
    assert IsKind(Bare("choice"));
    LonePart(Choice(Bare(name), Bare("choice"), c), Top, false);
    hide IsName, IsIdentifier, IsPadded, IsKind, ChoicesHaveShape, Balanced, ChoiceNames, ChoiceStyle;
    hide Names, TextsOf, HasShape;
  }

  lemma ChoiceIsPrinted(name: string, c: Choices)
    ensures Print(OneChoice(name, c)) == "{" + (name + ("," + ("choice" + (ChoiceStyle(c) + "}"))))
  {
    BareIsPadded(name);
    BareIsPadded("choice");
    LonePart(Choice(Bare(name), Bare("choice"), c), Top, false);
    hide PrintPadded, Print;
  }

  /** The scanner takes a choice for a style and reports no name in it. */
  lemma ChoiceHidesNames(name: string, c: Choices)
    requires IsName(name) && Balanced(ChoiceStyle(c), 1)
    ensures Parse(Print(OneChoice(name, c)), 0, false).names == {name}
  {
    var text := Print(OneChoice(name, c));
    assert IsKind(Bare("choice")) && "choice" !in BRANCHING && ChoiceStyle(c)[0] == ',';
    ChoiceIsPrinted(name, c);
    BareIsPadded(name);
    BareIsPadded("choice");
    assert HeadEnd(0, Bare(name), Bare("choice")) == |name| + 8;
    assert |text| == |name| + 8 + |ChoiceStyle(c)| + 1;
    hide *;
    AtStart(text);
    ParseOverTyped(text, 0, false, Bare(name), Bare("choice"), ChoiceStyle(c));
    NamesScanned(text, 0, |text|, {name});
    NothingIsLeft(text);
  }

  lemma AtStart(text: string)
    ensures At(text, 0, text)
  {
  }

  // ----- the exact condition

  /** The texts that a message may have. */
  predicate AreOpen(t: Texts) {
    && (forall n :: n in t.names ==> IsIdentifier(n))
    && (forall q :: q in t.quotes ==> IsQuotable(q, Plural))
    && (forall s :: s in t.styles ==> (s == "" || s[0] == ',') && IsStyle(s, 0, false))
    && (forall c :: c in t.choices ==> ChoicesHaveShape(c) && Balanced(ChoiceStyle(c), 1))
  }

  /** Every text of `a` that the scanner may get wrong is one of `t`. */
  predicate Within(a: Texts, t: Texts) {
    && (forall n :: n in a.names ==> IsName(n) || n in t.names)
    && (forall q :: q in a.quotes ==> IsQuotedText(q) || q in t.quotes)
    && (forall s :: s in a.styles ==> Balanced(s, 1) || s in t.styles)
    && (forall c :: c in a.choices ==> ChoiceNames(c) == {} || c in t.choices)
  }

  /** Take any names, quoted texts, styles and choices. The scanner finds exactly the names of every
      message whose doubtful texts are among them, if and only if the names start with a letter or an
      underscore, the quoted texts start with a brace and have apostrophes only before a brace, an
      apostrophe or the end, the braces of the styles, quoted ones included, balance, and the choices
      have no argument. */
  lemma ScannerIsRightIff(t: Texts)
    requires AreOpen(t)
    ensures (forall m :: HasShape(m, Top, false) && Within(TextsOf(m), t) ==> NamesAreFound(m)) <==> AreSafe(t)
  {
    hide HasShape, NamesAreFound, IsName, IsIdentifier, IsQuotedText, IsQuotable, Balanced, IsStyle, ChoiceNames;
    if AreSafe(t) {
      forall m | HasShape(m, Top, false) && Within(TextsOf(m), t)
        ensures NamesAreFound(m)
      {
        FoundIfSafe(m);
      }
    } else if n :| n in t.names && !IsName(n) {
      UnsafeName(t, n);
    } else if q :| q in t.quotes && !IsQuotedText(q) {
      UnsafeQuote(t, q);
    } else if style :| style in t.styles && !Balanced(style, 1) {
      UnsafeStyle(t, style);
    } else {
      var c :| c in t.choices && ChoiceNames(c) != {};
      UnsafeChoice(t, c);
    }
  }

  lemma FoundIfSafe(m: Message)
    requires HasShape(m, Top, false) && AreSafe(TextsOf(m))
    ensures NamesAreFound(m)
  {
    PrintedNamesAreFound(m);
  }

  lemma UnsafeName(t: Texts, word: string)
    requires word in t.names && IsIdentifier(word) && !IsName(word)
    ensures exists m :: HasShape(m, Top, false) && Within(TextsOf(m), t) && !NamesAreFound(m)
  {
    var m := OneArgument(word);
    OneArgumentFacts(word);
    UnknownNameIsMissed(word);
    hide HasShape, TextsOf, Print, Parse, Names, OneArgument;
    assert HasShape(m, Top, false) && Within(TextsOf(m), t) && !NamesAreFound(m);
  }

  lemma InPluralFacts(t: Texts, quoted: string, n: nat)
    requires quoted in t.quotes && IsQuotable(quoted, Plural) && n > 0
    ensures HasShape(InPlural(quoted, n), Top, false) && Within(TextsOf(InPlural(quoted, n)), t)
    ensures Repeat('x', n) in Names(InPlural(quoted, n))
  {
    var body := Then(Quoted(quoted), LastArgument(n));
    LongName(n);
    LongArgument(n, Plural, true);
    ShortWords();
    hide Repeat, LastArgument, IsQuotable, IsName, IsIdentifier, IsPadded, IsKind, IsQuotedText, PrintPadded;
    assert StaysClosed(Quoted(quoted), false) && PartHasShape(Quoted(quoted), Plural);
    assert HasShape(body, Plural, false);
    assert TextsOf(body) == Texts({Repeat('x', n)}, {quoted}, {}, {}) by {
      assert PartTexts(Quoted(quoted)) == NO_TEXTS.(quotes := {quoted});
    }
    assert Names(body) == {Repeat('x', n)} by {
      assert PartNames(Quoted(quoted)) == {};
    }
    OneCaseFacts(body);
  }

  lemma PluralFacts(cases: Cases)
    requires CasesHaveShape(cases, Plural)
    ensures
      var m := Then(Branching(Bare("n"), Bare("plural"), cases), End);
      && HasShape(m, Top, false) && Names(m) == {"n"} + CaseNames(cases)
      && TextsOf(m) == Both(NO_TEXTS.(names := {"n"}), CaseTexts(cases))
  {
    BareIsPadded("n");
    ShortWords();
    NameIsIdentifier("n");
    LonePart(Branching(Bare("n"), Bare("plural"), cases), Top, false);
    assert ParentOf("plural") == Plural;
    hide CasesHaveShape, CaseNames, CaseTexts, IsIdentifier, IsPadded, IsKind, IsName, Names, TextsOf, HasShape, Bare;
  }

  lemma OneCaseFacts(body: Message)
    requires HasShape(body, Plural, false)
    ensures
      var m := Then(Branching(Bare("n"), Bare("plural"), Case("other", body, Last(""))), End);
      && HasShape(m, Top, false) && Names(m) == {"n"} + Names(body)
      && TextsOf(m) == Both(NO_TEXTS.(names := {"n"}), TextsOf(body))
  {
    hide *;
    OtherCaseFacts(body);
    PluralFacts(Case("other", body, Last("")));
  }

  lemma OtherCaseFacts(body: Message)
    requires HasShape(body, Plural, false)
    ensures
      var cases := Case("other", body, Last(""));
      CasesHaveShape(cases, Plural) && CaseNames(cases) == Names(body) && CaseTexts(cases) == TextsOf(body)
  {
    hide HasShape, Names, TextsOf;
    assert CaseTexts(Last("")) == NO_TEXTS && CaseNames(Last("")) == {};
  }

  lemma UnsafeQuote(t: Texts, quoted: string)
    requires quoted in t.quotes && IsQuotable(quoted, Plural) && !IsQuotedText(quoted)
    ensures exists m :: HasShape(m, Top, false) && Within(TextsOf(m), t) && !NamesAreFound(m)
  {
    hide *;
    if IsQuotable(quoted, Top) {
      UnsafeTopQuote(t, quoted);
    } else {
      var n := |Doubled(quoted)| + 18;
      NoBraceFirst(quoted);
      InPluralFacts(t, quoted, n);
      HashQuoteHidesName(quoted);
      NotFound(InPlural(quoted, n));
    }
  }

  lemma NoBraceFirst(quoted: string)
    requires IsQuotable(quoted, Plural) && !IsQuotable(quoted, Top)
    ensures !IsBrace(quoted[0])
  {
  }

  lemma UnsafeTopQuote(t: Texts, quoted: string)
    requires quoted in t.quotes && IsQuotable(quoted, Top) && !IsQuotedText(quoted)
    ensures exists m :: HasShape(m, Top, false) && Within(TextsOf(m), t) && !NamesAreFound(m)
  {
    hide *;
    var n := |Doubled(quoted)| + 2;
    var m := Then(Quoted(quoted), LastArgument(n));
    LongName(n);
    LongArgument(n, Top, true);
    QuoteWithin(t, quoted, LastArgument(n), Repeat('x', n));
    BadQuoteHidesName(quoted);
    NotFound(m);
  }

  lemma QuoteWithin(t: Texts, quoted: string, rest: Message, name: string)
    requires quoted in t.quotes && IsQuotable(quoted, Top) && HasShape(rest, Top, true)
    requires IsName(name) && TextsOf(rest) == NO_TEXTS.(names := {name})
    ensures
      var m := Then(Quoted(quoted), rest);
      HasShape(m, Top, false) && Within(TextsOf(m), t) && Names(m) == Names(rest)
  {
    hide IsName, IsQuotable, IsQuotedText, Balanced;
    assert PartHasShape(Quoted(quoted), Top) && StaysClosed(Quoted(quoted), false);
    assert PartTexts(Quoted(quoted)) == NO_TEXTS.(quotes := {quoted}) && PartNames(Quoted(quoted)) == {};
    assert TextsOf(Then(Quoted(quoted), rest)) == Texts({name}, {quoted}, {}, {});
  }

  lemma UnsafeStyle(t: Texts, style: string)
    requires style in t.styles && (style == "" || style[0] == ',') && IsStyle(style, 0, false) && !Balanced(style, 1)
    ensures exists m :: HasShape(m, Top, false) && Within(TextsOf(m), t) && !NamesAreFound(m)
  {
    var n := |style| + 8;
    assert Balanced("", 1);
    hide *;
    DenHasShape(style, n);
    DenTexts(style, n);
    LongName(n);
    LongName(n + 1);
    StyleWithin(t, style, Repeat('x', n + 1), Repeat('x', n));
    BadStyleGivesWrongNames(style);
  }

  lemma StyleWithin(t: Texts, style: string, name: string, x: string)
    requires style in t.styles && IsName(name) && IsName(x)
    ensures Within(Texts({name, x}, {}, {style}, {}), t)
  {
  }

  lemma UnsafeChoice(t: Texts, c: Choices)
    requires c in t.choices && ChoicesHaveShape(c) && Balanced(ChoiceStyle(c), 1) && ChoiceNames(c) != {}
    ensures exists m :: HasShape(m, Top, false) && Within(TextsOf(m), t) && !NamesAreFound(m)
  {
    hide *;
    var other :| other in ChoiceNames(c);
    var name := Repeat('x', |other| + 1);
    var m := OneChoice(name, c);
    LongName(|other| + 1);
    OneChoiceFacts(name, c);
    ChoiceWithin(t, c, name);
    ChoiceHidesNames(name, c);
    assert other in Names(m) && other !in Parse(Print(m), 0, false).names;
    NotFound(m);
  }

  lemma ChoiceWithin(t: Texts, c: Choices, name: string)
    requires c in t.choices && IsName(name)
    ensures Within(Texts({name}, {}, {}, {c}), t)
  {
  }

  // ----- an example of every kind

  lemma {:induction false} CloseOverPlain(text: string, i: nat, k: nat, depth: nat)
    requires i <= k <= |text| && depth > 0 && forall m :: i <= m < k ==> NoBrace(text[m])
    ensures Close(text, i, depth) == Close(text, k, depth)
    decreases k - i
  {
    if i < k {
      CloseOverPlain(text, i + 1, k, depth);
    }
  }

  lemma CloseOverBrace(text: string, i: nat, depth: nat)
    requires i < |text| && depth > 0 && IsBrace(text[i])
    ensures Close(text, i, depth) == Close(text, i + 1, if text[i] == '{' then depth + 1 else depth - 1)
    ensures Close(text, i + 1, 0) == i + 1
  {
  }

  lemma ShortWords()
    ensures IsName("d") && IsName("n") && IsName("x") && EndsHead(',')
    ensures IsKind(Bare("date")) && IsKind(Bare("choice")) && IsKind(Bare("plural"))
    ensures |"date"| == 4 && |"choice"| == 6 && |"plural"| == 6 && |"other"| == 5 && All("other", NoBrace)
    ensures "date" !in BRANCHING && "choice" !in BRANCHING && "plural" in BRANCHING
  {
  }

  lemma ExampleHead(text: string, name: string, kind: string)
    requires IsName(name) && IsKind(Bare(kind)) && |name| + |kind| + 2 < |text|
    requires At(text, 1, name) && text[|name| + 1] == ',' && At(text, |name| + 2, kind)
    requires EndsHead(text[|name| + |kind| + 2])
    ensures MatchHead(text, 0) == Head(name, Some(kind), |name| + |kind| + 2)
  {
    BareIsPadded(name);
    BareIsPadded(kind);
    hide At, IsName, IsKind, MatchHead, IsPadded, PrintPadded, EndsHead;
    TypedHead(text, 0, Bare(name), Bare(kind));
  }

  /** The whole text is one argument without branches. */
  lemma OnlyOneName(text: string, name: string, kind: string)
    requires text != "" && text[0] == '{' && kind !in BRANCHING
    requires MatchHead(text, 0) == Head(name, Some(kind), |name| + |kind| + 2)
    requires Close(text, |name| + |kind| + 2, 1) == |text|
    ensures Parse(text, 0, false).names == {name}
  {
    hide MatchHead, Parse, Close, Branches;
    HeadStep(text, 0, false);
    NothingIsLeft(text);
  }

  lemma StyleExample(text: string)
    requires text == "{d,date,'{'}{x}"
    ensures |text| == 15 && text[0] == '{' && At(text, 1, "d") && text[2] == ','
    ensures At(text, 3, "date") && text[7] == ','
    ensures text[9] == '{' && text[11] == '}' && text[12] == '{' && text[14] == '}'
    ensures NoBrace(text[7]) && NoBrace(text[8]) && NoBrace(text[10]) && NoBrace(text[13])
  {
  }

  /** A quoted brace in a style: a valid message with two arguments, one of which is not reported. */
  lemma QuotedBraceInStyleHidesName(text: string)
    requires text == "{d,date,'{'}{x}"
    ensures Parse(text, 0, false).names == {"d"}
  {
    StyleExample(text);
    ShortWords();
    hide At, MatchHead, Parse, Close, IsName, IsKind, EndsHead;
    ExampleHead(text, "d", "date");
    CloseOverPlain(text, 7, 9, 1);
    CloseOverBrace(text, 9, 1);
    CloseOverPlain(text, 10, 11, 2);
    CloseOverBrace(text, 11, 2);
    CloseOverBrace(text, 12, 1);
    CloseOverPlain(text, 13, 14, 2);
    CloseOverBrace(text, 14, 2);
    CloseAtEnd(text, 1);
    OnlyOneName(text, "d", "date");
  }

  lemma CloseAtEnd(text: string, depth: nat)
    ensures Close(text, |text|, depth) == |text|
  {
  }

  lemma ChoiceExample(text: string)
    requires text == "{n,choice,0#none|1#{x}}"
    ensures |text| == 23 && text[0] == '{' && At(text, 1, "n") && text[2] == ','
    ensures At(text, 3, "choice") && text[9] == ','
    ensures text[19] == '{' && NoBrace(text[20]) && text[21] == '}' && text[22] == '}'
    ensures forall m :: 9 <= m < 19 ==> NoBrace(text[m])
  {
  }

  /** A choice: a valid message with two arguments, of which one is not reported. */
  lemma ChoiceHidesName(text: string)
    requires text == "{n,choice,0#none|1#{x}}"
    ensures Parse(text, 0, false).names == {"n"}
  {
    ChoiceExample(text);
    ShortWords();
    hide At, MatchHead, Parse, Close, IsName, IsKind, EndsHead;
    ExampleHead(text, "n", "choice");
    CloseOverPlain(text, 9, 19, 1);
    CloseOverBrace(text, 19, 1);
    CloseOverPlain(text, 20, 21, 2);
    CloseOverBrace(text, 21, 2);
    CloseOverBrace(text, 22, 1);
    OnlyOneName(text, "n", "choice");
  }

  predicate StartsPlural(text: string) { |text| > 16 && text[..16] == PLURAL_BEFORE }

  lemma PluralStart(text: string)
    requires StartsPlural(text)
    ensures |text| > 16
    ensures text[0] == '{' && At(text, 1, "n") && text[2] == ',' && At(text, 3, "plural") && text[9] == ','
    ensures At(text, 10, "other") && text[15] == '{'
  {
    var start := text[..16];
    assert forall k :: 0 <= k < 16 ==> text[k] == start[k];
  }

  /** The scan of a message whose body starts at position 16. */
  lemma PluralScan(text: string)
    requires StartsPlural(text)
    ensures
      var body := Parse(text, 16, true);
      var more := Branches(text, body.end + 1);
      var top := Parse(text, more.end + 1, false);
      Parse(text, 0, false).names == {"n"} + (body.names + more.names + top.names)
  {
    hide *;
    PluralHead(text);
    PluralArgument(text);
    HeadStep(text, 0, false);
    PluralBranches(text);
    BodyStep(text, 15);
  }

  lemma PluralHead(text: string)
    requires StartsPlural(text)
    ensures |text| > 16 && text[0] == '{' && text[9] == ',' && text[15] == '{'
    ensures MatchHead(text, 0) == Head("n", Some("plural"), 9)
  {
    hide *;
    PluralStart(text);
    ShortWords();
    assert |"n"| == 1;
    ExampleHead(text, "n", "plural");
  }

  lemma PluralBranches(text: string)
    requires StartsPlural(text)
    ensures Branches(text, 10) == Branches(text, 15)
  {
    hide *;
    PluralStart(text);
    ShortWords();
    BranchesOverSelector(text, 10, "other");
  }

  lemma PluralArgument(text: string)
    requires |text| > 9 && text[9] == ','
    ensures
      var h := Head("n", Some("plural"), 9);
      Argument(text, h) == Found(Branches(text, 10).names, Branches(text, 10).end + 1)
  {
    ShortWords();
    hide Branches;
  }

  lemma ScanEnds(text: string, i: nat)
    requires i >= |text|
    ensures Parse(text, i, true) == Found({}, i) && Parse(text, i, false) == Found({}, i)
    ensures Branches(text, i) == Found({}, i)
  {
  }

  lemma ScanStops(text: string, i: nat)
    requires i < |text| && text[i] == '}'
    ensures Parse(text, i, true) == Found({}, i) && Branches(text, i) == Found({}, i)
  {
  }

  lemma HashQuoteText(text: string)
    requires text == "{n,plural,other{'#'{x}}}"
    ensures StartsPlural(text) && |text| == 24 && text[16] == '\'' && text[17] == '#'
    ensures text[18] == '\'' && text[19] == '{' && forall k :: 19 <= k < 24 ==> NotApostrophe(text[k])
  {
  }

  lemma TextStep(text: string, i: nat, stop: bool)
    requires i + 1 < |text| && NoBrace(text[i])
    requires text[i] == '\'' ==> NoBrace(text[i + 1]) && text[i + 1] != '\''
    ensures Parse(text, i, stop) == Parse(text, i + 1, stop)
  {
  }

  lemma LongQuote(text: string, i: nat, stop: bool)
    requires i + 1 < |text| && text[i] == '\'' && IsBrace(text[i + 1])
    requires forall k :: i < k < |text| ==> NotApostrophe(text[k])
    ensures Parse(text, i, stop) == Found({}, |text|)
  {
    SkipAt(text, i + 1, text[i + 1..], NotApostrophe);
    QuoteStep(text, i, stop);
    hide Skip;
  }

  lemma HashQuoteBody(text: string)
    requires |text| == 24 && text[16] == '\'' && NoBrace(text[17]) && text[17] != '\''
    requires text[18] == '\'' && IsBrace(text[19]) && forall k :: 18 < k < 24 ==> NotApostrophe(text[k])
    ensures Parse(text, 16, true) == Found({}, 24)
  {
    assert NoBrace('\'');
    hide *;
    TextStep(text, 16, true);
    TextStep(text, 17, true);
    LongQuote(text, 18, true);
  }

  /** The names are those of the body when the scan of it does not end early. */
  lemma PluralNames(text: string, names: set<string>)
    requires StartsPlural(text) && |text| >= 24
    requires
      || Parse(text, 16, true) == Found(names, |text|)
      || (Parse(text, 16, true) == Found(names, |text| - 2) && text[|text| - 1] == '}')
    ensures Parse(text, 0, false).names == {"n"} + names
  {
    hide *;
    PluralScan(text);
    ScanEnds(text, |text|);
    ScanEnds(text, |text| + 1);
    ScanEnds(text, |text| + 2);
    if Parse(text, 16, true) == Found(names, |text| - 2) {
      ScanStops(text, |text| - 1);
    }
  }

  /** A quoted number sign in a plural: the argument behind it is not reported. */
  lemma QuotedHashHidesName(text: string)
    requires text == "{n,plural,other{'#'{x}}}"
    ensures Parse(text, 0, false).names == {"n"}
  {
    HashQuoteText(text);
    HashQuoteBody(text);
    hide *;
    PluralNames(text, {});
  }

  lemma HashLeakText(text: string)
    requires text == "{n,plural,other{'#{x}' a}}"
    ensures StartsPlural(text) && |text| == 26 && text[16] == '\'' && text[17] == '#'
    ensures At(text, 18, "{" + ("x" + "}")) && text[21] == '\'' && text[22] == ' ' && text[23] == 'a'
    ensures text[24] == '}' && text[25] == '}'
  {
  }

  lemma SimpleInBody(text: string, i: nat, word: string)
    requires IsName(word) && At(text, i, "{" + (word + "}"))
    ensures Parse(text, i, true).names == {word} + Parse(text, i + |word| + 2, true).names
    ensures Parse(text, i, true).end == Parse(text, i + |word| + 2, true).end
  {
    BareIsPadded(word);
    PastBare(i + 1, word);
    hide At, PrintPadded, IsName, Bare, Parse;
    ParseOverSimple(text, i, true, Bare(word));
  }

  lemma HashLeakBody(text: string)
    requires |text| == 26 && text[16] == '\'' && NoBrace(text[17]) && text[17] != '\''
    requires At(text, 18, "{" + ("x" + "}")) && text[21] == '\'' && NoBrace(text[22]) && text[22] != '\''
    requires NoBrace(text[23]) && text[23] != '\'' && text[24] == '}'
    ensures Parse(text, 16, true) == Found({"x"}, 24)
  {
    assert NoBrace('\'') && |"x"| == 1;
    hide *;
    ShortWords();
    TextStep(text, 16, true);
    TextStep(text, 17, true);
    SimpleInBody(text, 18, "x");
    TextStep(text, 21, true);
    TextStep(text, 22, true);
    TextStep(text, 23, true);
    ScanStops(text, 24);
  }

  /** Text quoted behind a number sign: `x` is reported, though the message has the argument `n` only. */
  lemma QuotedHashLeaksName(text: string)
    requires text == "{n,plural,other{'#{x}' a}}"
    ensures Parse(text, 0, false).names == {"n", "x"}
  {
    HashLeakText(text);
    HashLeakBody(text);
    hide *;
    PluralNames(text, {"x"});
  }

  /** A positional argument has no name for the scanner. */
  lemma NumberIsMissed()
    ensures Parse("{0}", 0, false).names == {}
  {
    assert IsIdentifier("0") && !IsName("0");
    UnknownNameIsMissed("0");
    assert "{" + ("0" + "}") == "{0}";
  }
}
