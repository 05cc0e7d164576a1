/** Quoted texts the argument scanner leaves too early, and how it then hides an argument. */
module IcuQuotes {
  import opened Text
  import opened IcuArguments
  import opened IcuMessages

  predicate Short(names: set<string>, n: nat) { forall name :: name in names ==> |name| <= n }

  function Repeat(c: char, n: nat): string { seq(n, _ => c) }

  // ----- one step of the scanner

  lemma QuoteStep(text: string, i: nat, stop: bool)
    requires i < |text| && OpensQuote(text, i)
    ensures Parse(text, i, stop) == Parse(text, AfterQuote(text, i), stop)
  {
  }

  lemma HeadStep(text: string, i: nat, stop: bool)
    requires i < |text| && text[i] == '{' && MatchHead(text, i).Head?
    ensures
      var h := MatchHead(text, i);
      var argument := Argument(text, h);
      var rest := Parse(text, argument.end, stop);
      Parse(text, i, stop) == Found({h.name} + argument.names + rest.names, rest.end)
  {
  }

  lemma PlainStep(text: string, i: nat, stop: bool)
    requires i < |text| && !OpensQuote(text, i)
    requires !(text[i] == '}' && stop) && !(text[i] == '{' && MatchHead(text, i).Head?)
    ensures Parse(text, i, stop) == Parse(text, i + 1, stop)
  {
  }

  lemma BodyStep(text: string, i: nat)
    requires i < |text| && text[i] == '{'
    ensures
      var body := Parse(text, i + 1, true);
      var rest := Branches(text, body.end + 1);
      Branches(text, i) == Found(body.names + rest.names, rest.end)
  {
  }

  lemma SelectorStep(text: string, i: nat)
    requires i < |text| && NoBrace(text[i])
    ensures Branches(text, i) == Branches(text, i + 1)
  {
  }

  // ----- a head does not reach past an apostrophe or a closing brace

  predicate EndsWords(c: char) { c == '\'' || c == '}' }

  lemma {:induction false} SkipBefore(text: string, i: nat, e: nat, p: char -> bool)
    requires i <= e < |text| && !p(text[e])
    ensures Skip(text, i, p) <= e
    decreases e - i
  {
    if i < e && p(text[i]) {
      SkipBefore(text, i + 1, e, p);
    }
  }

  lemma HeadBefore(text: string, i: nat, e: nat)
    requires i < e < |text| && EndsWords(text[e]) && MatchHead(text, i).Head?
    ensures
      var h := MatchHead(text, i);
      i < h.end <= e && AfterComma(text, h.end) <= e && 1 <= |h.name| < e - i
  {
    hide Skip, MatchKind, AfterComma;
    var nameAt := Skip(text, i + 1, IsSpace);
    SkipBefore(text, i + 1, e, IsSpace);
    SkipBefore(text, nameAt + 1, e, IsWord);
    var nameEnd := Skip(text, nameAt + 1, IsWord);
    SkipBefore(text, nameEnd, e, IsSpace);
    KindBefore(text, Skip(text, nameEnd, IsSpace), e, text[nameAt..nameEnd]);
  }

  lemma KindBefore(text: string, comma: nat, e: nat, name: string)
    requires comma <= e < |text| && EndsWords(text[e])
    ensures MatchKind(text, comma, name).end <= e && MatchKind(text, comma, name).name == name
    ensures AfterComma(text, MatchKind(text, comma, name).end) <= e
  {
    hide Skip;
    if text[comma] == ',' {
      var kindAt := Skip(text, comma + 1, IsSpace);
      SkipBefore(text, comma + 1, e, IsSpace);
      SkipBefore(text, kindAt, e, IsLetter);
      SkipBefore(text, Skip(text, kindAt, IsLetter), e, IsSpace);
    }
  }

  // ----- an apostrophe met outside quotes that hides the argument after it

  /** An apostrophe at `e`, then `{`, and only letters and closing braces up to the end of the text. */
  predicate IsTrap(text: string, e: nat) {
    && e + 2 <= |text| && text[e] == '\'' && text[e + 1] == '{'
    && forall k :: e + 2 <= k < |text| ==> IsLetter(text[k]) || text[k] == '}'
  }

  lemma {:induction false} NothingAfterTrap(text: string, e: nat, i: nat, stop: bool)
    requires IsTrap(text, e) && e + 2 <= i
    ensures Parse(text, i, stop).names == {} && Branches(text, i).names == {}
    decreases |text| - i
  {
    if i < |text| {
      NothingAfterTrap(text, e, i + 1, stop);
    }
  }

  lemma {:induction false} CloseIntoTrap(text: string, e: nat, i: nat, depth: nat)
    requires IsTrap(text, e) && i <= e && depth > 0
    ensures Missed(text, e, i, Close(text, i, depth))
    decreases e - i
  {
    if i == e {
      assert Close(text, e, depth) == Close(text, e + 1, depth) == Close(text, e + 2, depth + 1);
    } else if text[i] == '}' && depth == 1 {
      assert Close(text, i + 1, 0) == i + 1;
    } else {
      CloseIntoTrap(text, e, i + 1, if text[i] == '{' then depth + 1 else if text[i] == '}' then depth - 1 else depth);
    }
  }

  /** From `i` to `e` an apostrophe stands in a pair or before a character that is no brace. */
  predicate Loose(text: string, i: nat, e: nat)
    requires i <= e <= |text|
    decreases e - i
  {
    i == e ||
    if text[i] != '\'' then Loose(text, i + 1, e)
    else if i + 1 < e && text[i + 1] == '\'' then Loose(text, i + 2, e)
    else i + 1 < e && !IsBrace(text[i + 1]) && Loose(text, i + 1, e)
  }

  lemma {:induction false} LooseAfter(text: string, b: nat, e: nat, k: nat)
    requires b <= k < e <= |text| && Loose(text, b, e) && text[k] != '\''
    ensures Loose(text, k + 1, e)
    decreases e - b
  {
    if text[b] == '\'' && text[b + 1] == '\'' {
      LooseAfter(text, b + 2, e, k);
    } else if b < k {
      LooseAfter(text, b + 1, e, k);
    }
  }

  lemma {:induction false} LooseBefore(text: string, i: nat, k: nat, e: nat)
    requires i <= k <= e <= |text| && Loose(text, k, e) && forall m :: i <= m < k ==> text[m] != '\''
    ensures Loose(text, i, e)
    decreases k - i
  {
    if i < k {
      LooseBefore(text, i + 1, k, e);
    }
  }

  /** Where the scanner stands after a piece: past the brace that follows the apostrophe, or still
      in front of it and just behind a closing brace. */
  predicate Missed(text: string, e: nat, from: nat, end: nat) {
    end >= e + 2 || (from < end <= e < |text| && text[end - 1] == '}')
  }

  lemma {:induction false} ParseIntoTrap(text: string, e: nat, i: nat, stop: bool)
    requires IsTrap(text, e) && i <= e && Loose(text, i, e)
    ensures var r := Parse(text, i, stop); Short(r.names, e) && Missed(text, e, i, r.end + 1)
    decreases |text| - i, 1
  {
    hide Argument, MatchHead, Branches, Close;
    if i == e {
      AfterLastQuote(text, e);
      QuoteStep(text, e, stop);
    } else if text[i] == '\'' && text[i + 1] == '\'' {
      assert Skip(text, i + 1, NotApostrophe) == i + 1;
      QuoteStep(text, i, stop);
      ParseIntoTrap(text, e, i + 2, stop);
    } else if text[i] == '}' && stop {
    } else if text[i] == '{' && MatchHead(text, i).Head? {
      ParseHeadIntoTrap(text, e, i, stop);
    } else {
      PlainStep(text, i, stop);
      ParseIntoTrap(text, e, i + 1, stop);
    }
  }

  lemma {:induction false} ParseHeadIntoTrap(text: string, e: nat, i: nat, stop: bool)
    requires IsTrap(text, e) && i < e && Loose(text, i, e) && text[i] == '{' && MatchHead(text, i).Head?
    ensures var r := Parse(text, i, stop); Short(r.names, e) && Missed(text, e, i, r.end + 1)
    decreases |text| - i, 0
  {
    hide Parse, Argument, Branches, Close, MatchHead, MatchKind, Skip, Loose, AfterComma, OpensQuote, IsBranching;
    HeadBefore(text, i, e);
    HeadStep(text, i, stop);
    var h := MatchHead(text, i);
    ArgumentIntoTrap(text, e, i, h);
    var next := Argument(text, h).end;
    if next >= e + 2 {
      NothingAfterTrap(text, e, next, stop);
    } else {
      LooseAfter(text, i, e, next - 1);
      ParseIntoTrap(text, e, next, stop);
    }
  }

  lemma AfterLastQuote(text: string, e: nat)
    requires IsTrap(text, e)
    ensures OpensQuote(text, e) && AfterQuote(text, e) == |text|
  {
    SkipsToEnd(text, e, e + 1);
  }

  lemma {:induction false} SkipsToEnd(text: string, e: nat, i: nat)
    requires IsTrap(text, e) && e < i <= |text|
    ensures Skip(text, i, NotApostrophe) == |text|
    decreases |text| - i
  {
    if i < |text| {
      SkipsToEnd(text, e, i + 1);
    }
  }

  lemma {:induction false} ArgumentIntoTrap(text: string, e: nat, b: nat, h: Head)
    requires IsTrap(text, e) && h.Head? && b <= h.end <= AfterComma(text, h.end) <= e && Loose(text, b, e)
    ensures var r := Argument(text, h); Short(r.names, e) && Missed(text, e, h.end, r.end)
    decreases |text| - h.end, 2
  {
    if IsBranching(h) {
      BranchesIntoTrap(text, e, b, AfterComma(text, h.end));
    } else {
      CloseIntoTrap(text, e, h.end, 1);
    }
  }

  lemma {:induction false} BranchesIntoTrap(text: string, e: nat, b: nat, i: nat)
    requires IsTrap(text, e) && b <= i <= e && Loose(text, b, e)
    ensures var r := Branches(text, i); Short(r.names, e) && Missed(text, e, i, r.end + 1)
    decreases |text| - i, 0
  {
    hide Parse, Loose;
    if i == e {
      SelectorStep(text, e);
      BodyStep(text, e + 1);
      NothingAfterTrap(text, e, e + 2, true);
      NothingAfterTrap(text, e, Parse(text, e + 2, true).end + 1, true);
    } else if text[i] == '}' {
    } else if text[i] == '{' {
      hide Branches;
      BodyStep(text, i);
      LooseAfter(text, b, e, i);
      ParseIntoTrap(text, e, i + 1, true);
      var next := Parse(text, i + 1, true).end + 1;
      if next >= e + 2 {
        NothingAfterTrap(text, e, next, true);
      } else {
        BranchesIntoTrap(text, e, b, next);
      }
    } else {
      SelectorStep(text, i);
      BranchesIntoTrap(text, e, b, i + 1);
    }
  }

  // ----- quoted texts

  lemma {:induction false} DoubledIsLoose(text: string, i: nat, quoted: string)
    requires At(text, i, Doubled(quoted))
    ensures Loose(text, i, i + |Doubled(quoted)|)
    decreases |quoted|
  {
    if quoted != "" {
      AtTail(text, i, Doubled(quoted));
      if quoted[0] == '\'' {
        AtTail(text, i + 1, Doubled(quoted)[1..]);
        assert Doubled(quoted)[1..][1..] == Doubled(quoted[1..]);
        DoubledIsLoose(text, i + 2, quoted[1..]);
      } else {
        assert Doubled(quoted)[1..] == Doubled(quoted[1..]);
        DoubledIsLoose(text, i + 1, quoted[1..]);
      }
    }
  }

  predicate HasBadApostrophe(quoted: string) {
    exists k :: 0 <= k < |quoted| && quoted[k] == '\'' && !StaysSpecial(quoted[k + 1..])
  }

  /** The quote up to the first apostrophe at `k` is skipped; the pair there ends it and opens another. */
  lemma FirstQuote(text: string, i: nat, quoted: string, k: nat)
    requires StaysSpecial(quoted) && At(text, i, "'" + (Doubled(quoted) + "'"))
    requires k < |quoted| && quoted[k] == '\'' && All(quoted[..k], NotApostrophe)
    ensures At(text, i + k + 2, "'" + (Doubled(quoted[k + 1..]) + "'"))
    ensures |Doubled(quoted)| == k + 2 + |Doubled(quoted[k + 1..])|
    ensures Parse(text, i, false).names == Parse(text, i + k + 2, false).names
  {
    hide Parse, StaysSpecial;
    var a, rest := quoted[..k], quoted[k + 1..];
    assert quoted == a + ("'" + rest);
    DoubledAtApostrophe(a, rest);
    hide Doubled, At;
    QuoteAt(text, i, a, Doubled(rest));
    FirstIsSpecial(quoted, k);
    ParseOverQuote(text, i, false, a);
  }

  lemma BadApostropheLater(quoted: string, k: nat)
    requires HasBadApostrophe(quoted) && k < |quoted| && All(quoted[..k], NotApostrophe)
    ensures StaysSpecial(quoted[k + 1..]) ==> HasBadApostrophe(quoted[k + 1..])
  {
    hide StaysSpecial;
    var bad :| 0 <= bad < |quoted| && quoted[bad] == '\'' && !StaysSpecial(quoted[bad + 1..]);
    assert bad < k ==> NotApostrophe(quoted[..k][bad]);
    if bad > k {
      var rest := quoted[k + 1..];
      assert rest[bad - k - 1] == quoted[bad] && rest[bad - k..] == quoted[bad + 1..];
      assert rest[bad - k - 1 + 1..] == rest[bad - k..];
    }
  }

  lemma FirstApostrophe(quoted: string) returns (k: nat)
    requires HasBadApostrophe(quoted)
    ensures k < |quoted| && quoted[k] == '\'' && All(quoted[..k], NotApostrophe)
  {
    hide StaysSpecial, Doubled;
    k := FirstStretch(quoted);
    var bad :| 0 <= bad < |quoted| && quoted[bad] == '\'' && !StaysSpecial(quoted[bad + 1..]);
    assert bad < k ==> NotApostrophe(quoted[..k][bad]);
  }

  /** From the first apostrophe before an ordinary character on, the scanner is outside the quote. */
  lemma {:induction false} QuoteLeaks(text: string, i: nat, quoted: string, e: nat)
    requires StaysSpecial(quoted) && HasBadApostrophe(quoted) && At(text, i, "'" + (Doubled(quoted) + "'"))
    requires e == i + 1 + |Doubled(quoted)| && IsTrap(text, e)
    ensures Short(Parse(text, i, false).names, e)
    decreases |quoted|
  {
    hide *;
    var k := FirstApostrophe(quoted);
    FirstQuote(text, i, quoted, k);
    BadApostropheLater(quoted, k);
    if StaysSpecial(quoted[k + 1..]) {
      QuoteLeaks(text, i + k + 2, quoted[k + 1..], e);
    } else {
      LeavesQuote(text, i + k + 2, quoted[k + 1..], e);
    }
  }

  lemma LeavesQuote(text: string, i: nat, rest: string, e: nat)
    requires !StaysSpecial(rest) && At(text, i, "'" + (Doubled(rest) + "'"))
    requires e == i + 1 + |Doubled(rest)| && IsTrap(text, e)
    ensures Short(Parse(text, i, false).names, e)
  {
    AtBoth(text, i, "'", Doubled(rest) + "'");
    AtBoth(text, i + 1, Doubled(rest), "'");
    FirstAt(text, i, "'");
    FirstAt(text, i + 1, Doubled(rest));
    assert Parse(text, i, false) == Parse(text, i + 1, false);
    DoubledIsLoose(text, i + 1, rest);
    ParseIntoTrap(text, e, i + 1, false);
  }

  // ----- messages with a bad quote

  function Bare(word: string): Padded { Padded("", word, "") }

  lemma BareIsPadded(word: string)
    ensures IsPadded(Bare(word)) && PrintPadded(Bare(word)) == word && Bare(word).word == word
  {
  }

  lemma LongName(n: nat)
    requires n > 0
    ensures IsName(Repeat('x', n)) && |Repeat('x', n)| == n && All(Repeat('x', n), IsLetter)
    ensures PrintPadded(Bare(Repeat('x', n))) == Repeat('x', n)
  {
  }

  /** A message of one part. */
  lemma LonePart(part: Part, parent: Parent, closed: bool)
    ensures HasShape(Then(part, End), parent, closed)
       <==> PartHasShape(part, parent) && (closed ==> !IsApostropheLiteral(part))
    ensures Names(Then(part, End)) == PartNames(part) && TextsOf(Then(part, End)) == PartTexts(part)
    ensures Print(Then(part, End)) == PrintPart(part)
  {
    hide PartHasShape, PartNames, PartTexts, PrintPart, IsApostropheLiteral;
    assert Print(Then(part, End)) == PrintPart(part) + "";
  }

  /** The message `{x}` with a name of `n` letters. */
  function LastArgument(n: nat): Message { Then(Simple(Bare(Repeat('x', n))), End) }

  lemma NameIsIdentifier(word: string)
    requires IsName(word)
    ensures IsIdentifier(word)
  {
  }

  lemma LongArgument(n: nat, parent: Parent, closed: bool)
    requires n > 0
    ensures HasShape(LastArgument(n), parent, closed) && AreSafe(TextsOf(LastArgument(n)))
    ensures Names(LastArgument(n)) == {Repeat('x', n)}
    ensures TextsOf(LastArgument(n)) == NO_TEXTS.(names := {Repeat('x', n)})
    ensures Print(LastArgument(n)) == "{" + (Repeat('x', n) + "}")
  {
    var name := Repeat('x', n);
    LongName(n);
    NameIsIdentifier(name);
    BareIsPadded(name);
    hide Repeat, IsName, IsIdentifier, IsPadded, PrintPadded;
    LonePart(Simple(Bare(name)), parent, closed);
    hide Names, TextsOf, Print, HasShape;
  }

  ghost predicate NamesAreFound(m: Message) {
    Parse(Print(m), 0, false).names == Names(m)
  }

  lemma TooLong(names: set<string>, name: string, n: nat)
    requires Short(names, n) && |name| > n
    ensures name !in names
  {
  }

  lemma BadQuotedText(quoted: string)
    requires IsQuotable(quoted, Plural) && !IsQuotedText(quoted)
    ensures if IsBrace(quoted[0]) then HasBadApostrophe(quoted) && StaysSpecial(quoted) else !StaysSpecial(quoted)
  {
  }

  lemma PrintOfQuoteAnd(quoted: string, rest: Message)
    ensures Print(Then(Quoted(quoted), rest)) == "'" + (Doubled(quoted) + "'") + Print(rest)
  {
    hide Doubled;
    assert PrintPart(Quoted(quoted)) == "'" + (Doubled(quoted) + "'");
  }

  /** A quote and `{x}`, between a text without apostrophes and closing braces. */
  lemma TrapAfterQuote(text: string, before: string, quote: string, x: string, after: string)
    requires text == before + (quote + ("{" + (x + "}"))) + after
    requires quote != "" && quote[|quote| - 1] == '\''
    requires All(x, IsLetter) && forall k :: 0 <= k < |after| ==> after[k] == '}'
    ensures IsTrap(text, |before| + |quote| - 1) && At(text, |before|, quote)
  {
    var e := |before| + |quote| - 1;
    forall k | e + 2 <= k < |text|
      ensures IsLetter(text[k]) || text[k] == '}'
    {
      if k < e + 2 + |x| {
        assert text[k] == x[k - e - 2];
      } else if k > e + 2 + |x| {
        assert text[k] == after[k - e - 3 - |x|];
      }
    }
    assert forall k :: 0 <= k < |quote| ==> text[|before| + k] == quote[k];
  }

  lemma QuoteEnds(doubled: string)
    ensures var quote := "'" + (doubled + "'"); |quote| == |doubled| + 2 && quote[|quote| - 1] == '\''
  {
  }

  lemma NothingAround(text: string)
    ensures "" + text + "" == text
  {
  }

  /** At the top level a bad quote hides the argument behind it. */
  lemma BadQuoteHidesName(quoted: string)
    requires IsQuotable(quoted, Top) && !IsQuotedText(quoted)
    ensures
      var rest := LastArgument(|Doubled(quoted)| + 2);
      Parse(Print(Then(Quoted(quoted), rest)), 0, false).names != Names(rest)
  {
    hide *;
    var e := |Doubled(quoted)| + 1;
    var x, quote := Repeat('x', e + 1), "'" + (Doubled(quoted) + "'");
    var text := Print(Then(Quoted(quoted), LastArgument(e + 1)));
    TopIsPlural(quoted);
    BadQuotedText(quoted);
    LongName(e + 1);
    LongArgument(e + 1, Top, true);
    PrintOfQuoteAnd(quoted, LastArgument(e + 1));
    QuoteEnds(Doubled(quoted));
    NothingAround(text);
    TrapAfterQuote(text, "", quote, x, "");
    if IsBrace(quoted[0]) {
      QuoteLeaks(text, 0, quoted, e);
    } else {
      LeavesQuote(text, 0, quoted, e);
    }
    TooLong(Parse(text, 0, false).names, x, e);
    assert x in Names(LastArgument(e + 1));
  }

  lemma TopIsPlural(quoted: string)
    requires IsQuotable(quoted, Top)
    ensures IsQuotable(quoted, Plural) && quoted != ""
  {
  }

  const PLURAL_BEFORE := "{n,plural,other{"

  /** The message `{n,plural,other{'...'{x}}}` with the quoted text and a name of `n` letters. */
  function InPlural(quoted: string, n: nat): Message {
    Then(Branching(Bare("n"), Bare("plural"), Case("other", Then(Quoted(quoted), LastArgument(n)), Last(""))), End)
  }

  lemma InPluralPrinted(quoted: string, n: nat)
    requires n > 0
    ensures
      var quote := "'" + (Doubled(quoted) + "'");
      Print(InPlural(quoted, n)) == PLURAL_BEFORE + (quote + ("{" + (Repeat('x', n) + "}"))) + "}}"
  {
    var body := Then(Quoted(quoted), LastArgument(n));
    var quote := "'" + (Doubled(quoted) + "'");
    LongArgument(n, Plural, true);
    PrintOfQuoteAnd(quoted, LastArgument(n));
    OneCaseIsPrinted(body);
    hide *;
  }

  lemma OneCaseIsPrinted(body: Message)
    ensures Print(Then(Branching(Bare("n"), Bare("plural"), Case("other", body, Last(""))), End))
         == PLURAL_BEFORE + Print(body) + "}}"
  {
    var cases := Case("other", body, Last(""));
    BareIsPadded("n");
    BareIsPadded("plural");
    assert PrintCases(cases) == "other" + ("{" + (Print(body) + ("}" + "")));
    var part := Branching(Bare("n"), Bare("plural"), cases);
    assert Print(Then(part, End)) == PrintPart(part) + "";
    PluralText(Print(body));
  }

  lemma PluralText(body: string)
    ensures "{" + ("n" + ("," + ("plural" + ("," + (("other" + ("{" + (body + ("}" + "")))) + "}"))))) + ""
         == PLURAL_BEFORE + body + "}}"
  {
  }

  /** In the body of a plural a quote that starts with no brace hides the argument behind it. */
  lemma HashQuoteHidesName(quoted: string)
    requires IsQuotable(quoted, Plural) && !IsBrace(quoted[0])
    ensures
      var n := |Doubled(quoted)| + 18;
      Repeat('x', n) !in Parse(Print(InPlural(quoted, n)), 0, false).names
  {
    hide *;
    var n, quote := |Doubled(quoted)| + 18, "'" + (Doubled(quoted) + "'");
    var text := Print(InPlural(quoted, n));
    LongName(n);
    InPluralPrinted(quoted, n);
    QuoteEnds(Doubled(quoted));
    PluralBefore();
    TrapAfterQuote(text, PLURAL_BEFORE, quote, Repeat('x', n), "}}");
    LooseInPlural(text, quoted);
    ParseIntoTrap(text, n - 1, 0, false);
    TooLong(Parse(text, 0, false).names, Repeat('x', n), n - 1);
  }

  lemma PluralBefore()
    ensures |PLURAL_BEFORE| == 16 && forall k :: 0 <= k < 16 ==> PLURAL_BEFORE[k] != '\''
    ensures forall k :: 0 <= k < |"}}"| ==> "}}"[k] == '}'
  {
  }

  lemma LooseInPlural(text: string, quoted: string)
    requires IsQuotable(quoted, Plural) && !IsBrace(quoted[0]) && PLURAL_BEFORE <= text
    requires At(text, 16, "'" + (Doubled(quoted) + "'"))
    ensures Loose(text, 0, 17 + |Doubled(quoted)|)
  {
    PluralBefore();
    FirstOfDoubled(quoted);
    hide Doubled;
    AtBoth(text, 16, "'", Doubled(quoted) + "'");
    AtBoth(text, 17, Doubled(quoted), "'");
    FirstAt(text, 16, "'");
    FirstAt(text, 17, Doubled(quoted));
    DoubledIsLoose(text, 17, quoted);
    LooseBefore(text, 0, 16, 17 + |Doubled(quoted)|);
  }

  lemma FirstOfDoubled(quoted: string)
    requires IsQuotable(quoted, Plural) && !IsBrace(quoted[0])
    ensures Doubled(quoted) != "" && Doubled(quoted)[0] == quoted[0] != '\''
  {
  }

  /** Whatever message follows a quoted text, its names are found and no others, if and only if the
      text starts with a brace and every apostrophe in it stands before a brace, an apostrophe or the end. */
  lemma QuoteIsSkippedIff(quoted: string)
    requires IsQuotable(quoted, Top)
    ensures (forall rest :: IsMessage(rest, Top, true) ==>
               Parse(Print(Then(Quoted(quoted), rest)), 0, false).names == Names(rest))
       <==> IsQuotedText(quoted)
  {
    if IsQuotedText(quoted) {
      forall rest | IsMessage(rest, Top, true)
        ensures Parse(Print(Then(Quoted(quoted), rest)), 0, false).names == Names(rest)
      {
        NamesAfterQuote(quoted, rest);
        PrintedNamesAreFound(Then(Quoted(quoted), rest));
      }
    } else {
      hide *;
      var rest := LastArgument(|Doubled(quoted)| + 2);
      BadQuoteHidesName(quoted);
      LongArgument(|Doubled(quoted)| + 2, Top, true);
      SafeIsMessage(rest, Top, true);
    }
  }

  lemma SafeIsMessage(m: Message, parent: Parent, closed: bool)
    requires HasShape(m, parent, closed) && AreSafe(TextsOf(m))
    ensures IsMessage(m, parent, closed)
  {
  }

  lemma NamesAfterQuote(quoted: string, rest: Message)
    requires IsQuotable(quoted, Top) && IsQuotedText(quoted) && IsMessage(rest, Top, true)
    ensures Names(Then(Quoted(quoted), rest)) == Names(rest)
    ensures IsMessage(Then(Quoted(quoted), rest), Top, false)
  {
    assert PartNames(Quoted(quoted)) == {};
    assert PartTexts(Quoted(quoted)) == NO_TEXTS.(quotes := {quoted});
    assert StaysClosed(Quoted(quoted), false);
    assert HasShape(Then(Quoted(quoted), rest), Top, false);
    hide IsQuotedText, Balanced, IsName, ChoiceNames, HasShape;
    assert AreSafe(Both(PartTexts(Quoted(quoted)), TextsOf(rest)));
  }
}
