/** What the scanner takes from a message, with the characters written out. */
module IcuPatterns {
  import opened Text
  import opened IcuArguments
  import opened IcuMessages
  import opened IcuQuotes
  import opened IcuStyles
  import opened IcuLimits

  lemma NameIsReported(word: string)
    requires IsName(word)
    ensures Parse("{" + (word + "}"), 0, false).names == {word}
  {
    hide *;
    var text := "{" + (word + "}");
    AtStart(text);
    SimpleAt(text, 0, word);
    BareNameAt(text, 0, word);
    NothingIsLeft(text);
  }

  /** A lone argument is reported under its whole name: letters, digits and underscores, no digit first. */
  lemma ArgumentIsReported(word: string)
    requires word != "" && !('0' <= word[0] <= '9')
    requires forall k :: 0 <= k < |word| ==>
      'a' <= word[k] <= 'z' || 'A' <= word[k] <= 'Z' || '0' <= word[k] <= '9' || word[k] == '_'
    ensures Parse("{" + (word + "}"), 0, false).names == {word}
  {
    assert IsName(word);
    NameIsReported(word);
  }

  lemma HeadKeepsName(text: string, i: nat)
    requires i < |text| && MatchHead(text, i).Head?
    ensures
      var nameAt := Skip(text, i + 1, IsSpace);
      nameAt < |text| && MatchHead(text, i).name == text[nameAt..Skip(text, nameAt + 1, IsWord)]
  {
  }

  /** The name ends where the word does, whatever ASCII character comes next. */
  lemma NameEndsWithWord(word: string, c: char, after: string)
    requires IsName(word) && c as int < 128 && c != '_'
    requires !('a' <= c <= 'z') && !('A' <= c <= 'Z') && !('0' <= c <= '9')
    ensures word in Parse("{" + (word + ([c] + after)), 0, false).names
  {
    var text := "{" + (word + ([c] + after));
    NameIsKnown(word);
    assert At(text, 1, word) && text[|word| + 1] == c && !IsWord(c);
    WordTaken(text, 1, word);
    assert Skip(text, 1, IsSpace) == 1;
    assert MatchHead(text, 0).Head?;
    HeadKeepsName(text, 0);
    AtSlice(text, 1, word);
    hide MatchHead, Parse, Skip;
    HeadStep(text, 0, false);
  }

  function OneCase(name: string, kind: string, inner: string): Message {
    Then(Branching(Bare(name), Bare(kind), Case("other", OneArgument(inner), Last(""))), End)
  }

  lemma OneCaseText(name: string, kind: string, inner: string)
    requires IsName(inner)
    ensures Print(OneCase(name, kind, inner))
         == "{" + (name + ("," + (kind + ("," + (("other" + ("{" + (("{" + (inner + "}")) + ("}" + "")))) + "}")))))
  {
    NameIsIdentifier(inner);
    OneArgumentFacts(inner);
    BareIsPadded(name);
    BareIsPadded(kind);
    LonePart(Branching(Bare(name), Bare(kind), Case("other", OneArgument(inner), Last(""))), Top, false);
    hide OneArgument, PrintPadded, IsName, IsIdentifier;
    assert PrintCases(Last("")) == "";
  }

  lemma OneCaseIsMessage(name: string, kind: string, inner: string)
    requires IsName(name) && IsName(inner) && kind in KEYWORDS && IsKind(Bare(kind))
    ensures IsMessage(OneCase(name, kind, inner), Top, false) && Names(OneCase(name, kind, inner)) == {name, inner}
  {
    NameIsIdentifier(name);
    NameIsIdentifier(inner);
    BareIsPadded(name);
    var body, parent := OneArgument(inner), ParentOf(kind);
    InnerArgument(inner, parent);
    hide IsName, IsIdentifier, IsKind, IsPadded, OneArgument;
    var cases := Case("other", body, Last(""));
    assert CasesHaveShape(cases, parent) && CaseNames(cases) == {inner};
    assert CaseTexts(cases) == NO_TEXTS.(names := {inner}) by {
      assert CaseTexts(Last("")) == NO_TEXTS;
    }
    LonePart(Branching(Bare(name), Bare(kind), cases), Top, false);
    hide HasShape, Names, TextsOf;
  }

  lemma InnerArgument(inner: string, parent: Parent)
    requires IsIdentifier(inner)
    ensures HasShape(OneArgument(inner), parent, false) && Names(OneArgument(inner)) == {inner}
    ensures TextsOf(OneArgument(inner)) == NO_TEXTS.(names := {inner})
  {
    BareIsPadded(inner);
    LonePart(Simple(Bare(inner)), parent, false);
    hide IsIdentifier, IsPadded;
  }

  /** The three keywords whose branches are read. */
  lemma BranchesAreRead(name: string, kind: string, inner: string)
    requires IsName(name) && IsName(inner) && (kind == "plural" || kind == "select" || kind == "selectordinal")
    ensures
      var branch := "other" + ("{" + (("{" + (inner + "}")) + ("}" + "")));
      var text := "{" + (name + ("," + (kind + ("," + (branch + "}")))));
      Parse(text, 0, false).names == {name, inner}
  {
    assert IsKind(Bare(kind));
    hide Parse, Print, IsName, IsKind, Names, OneCase;
    OneCaseText(name, kind, inner);
    OneCaseIsMessage(name, kind, inner);
    PrintedNamesAreFound(OneCase(name, kind, inner));
  }

  /** Behind any other keyword the braces are skipped. */
  lemma OtherBracesAreSkipped(name: string, kind: string, inner: string)
    requires IsName(name) && IsName(inner) && IsKind(Bare(kind))
    requires kind != "plural" && kind != "select" && kind != "selectordinal"
    ensures Parse("{" + (name + ("," + (kind + ((",other{{" + (inner + "}}")) + "}")))), 0, false).names == {name}
  {
    var style := ",other{{" + (inner + "}}");
    var text := "{" + (name + ("," + (kind + (style + "}"))));
    StyleBalances(inner);
    BareIsPadded(name);
    BareIsPadded(kind);
    KeywordsAreKnown();
    assert kind !in BRANCHING && style[0] == ',';
    assert HeadEnd(0, Bare(name), Bare(kind)) + |style| + 1 == |text|;
    AtStart(text);
    hide *;
    ParseOverTyped(text, 0, false, Bare(name), Bare(kind), style);
    NamesScanned(text, 0, |text|, {name});
    NothingIsLeft(text);
  }

  lemma {:induction false} BalancedOver(word: string, style: string, depth: nat)
    requires All(word, NoBrace) && depth > 0
    ensures Balanced(word + style, depth) == Balanced(style, depth)
    decreases |word|
  {
    if word == "" {
      assert word + style == style;
    } else {
      assert (word + style)[1..] == word[1..] + style;
      assert All(word[1..], NoBrace);
      BalancedOver(word[1..], style, depth);
    }
  }

  lemma StyleBalances(inner: string)
    requires IsName(inner)
    ensures Balanced(",other{{" + (inner + "}}"), 1)
  {
    var open, close := "{{" + (inner + "}}"), "}}";
    assert ",other{{" + (inner + "}}") == ",other" + open;
    BalancedOver(",other", open, 1);
    assert open[1..] == "{" + (inner + close) && open[1..][1..] == inner + close;
    assert forall c :: IsNameChar(c) ==> NoBrace(c);
    BalancedOver(inner, close, 3);
    assert close[1..] == "}" && close[1..][1..] == "";
    assert Balanced("", 1);
    assert Balanced(close, 3) == Balanced(close[1..], 2) == Balanced("", 1);
    assert Balanced(open, 1) == Balanced(open[1..], 2) == Balanced(inner + close, 3);
  }

  /** An apostrophe hides the text from a brace to the next apostrophe. */
  lemma QuoteHidesText(brace: char, text: string, after: string)
    requires (brace == '{' || brace == '}') && forall k :: 0 <= k < |text| ==> text[k] != '\''
    ensures Parse("'" + (([brace] + text) + "'") + after, 0, false).names
         == Parse("'" + (([brace] + text) + "'") + after, |text| + 3, false).names
  {
    var quoted := [brace] + text;
    var whole := "'" + (quoted + "'") + after;
    assert forall k :: 0 <= k < |quoted| + 2 ==> whole[k] == ("'" + (quoted + "'"))[k];
    ParseOverQuote(whole, 0, false, quoted);
  }

  /** Before any other character but an apostrophe it is an ordinary character. */
  lemma LoneApostropheIsText(c: char, after: string)
    requires c != '{' && c != '}' && c != '\''
    ensures Parse("'" + ([c] + after), 0, false).names == Parse("'" + ([c] + after), 1, false).names
  {
    var text := "'" + ([c] + after);
    assert text[1] == c;
    TextStep(text, 0, false);
  }

  /** Two apostrophes are one ordinary character. */
  lemma DoubledApostropheIsText(after: string)
    ensures Parse("''" + after, 0, false).names == Parse("''" + after, 2, false).names
  {
    var text := "''" + after;
    assert text == "'" + ("" + "'") + after;
    assert forall k :: 0 <= k < 2 ==> text[k] == ("'" + ("" + "'"))[k];
    ParseOverQuote(text, 0, false, "");
  }
}
