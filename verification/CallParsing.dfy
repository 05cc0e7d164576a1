/** Both scanners on printed calls: the call's own bracket is found, and its arguments come apart. */
module CallParsing {
  import opened Wrappers
  import opened Text
  import opened CallScanner
  import opened CallTrees

  lemma QuoteAt(text: string, i: nat, quote: char, s: string)
    requires At(text, i, [quote] + (s + [quote]))
    ensures
      var close := i + 1 + |s|;
      text[i] == quote && At(text, i + 1, s + [quote]) && At(text, i + 1, s) && close < |text| && text[close] == quote
  {
    AtBoth(text, i, [quote], s + [quote]);
    assert text[i + 0] == [quote][0];
    AtBoth(text, i + 1, s, [quote]);
    assert text[i + 1 + |s| + 0] == [quote][0];
  }

  lemma GroupAt(text: string, i: nat, open: char, body: string, close: char)
    requires At(text, i, [open] + (body + [close]))
    ensures text[i] == open && At(text, i + 1, body) && i + 1 + |body| < |text| && text[i + 1 + |body|] == close
  {
    AtBoth(text, i, [open], body + [close]);
    assert text[i + 0] == [open][0];
    AtBoth(text, i + 1, body, [close]);
    assert text[i + 1 + |body| + 0] == [close][0];
  }

  // ----- matching_end

  lemma {:induction false} MatchOverQuoted(text: string, i: nat, stack: seq<char>, quote: char, s: string)
    requires stack != [] && quote != '`' && At(text, i, s) && StaysQuoted(s, quote)
    ensures MatchFrom(text, i, stack, Some(quote)) == MatchFrom(text, i + |s|, stack, Some(quote))
    decreases |s|
  {
    if s != "" {
      AtTail(text, i, s);
      if s[0] == '\\' {
        AtTail(text, i + 1, s[1..]);
        assert s[1..][1..] == s[2..];
        MatchOverQuoted(text, i + 2, stack, quote, s[2..]);
      } else {
        MatchOverQuoted(text, i + 1, stack, quote, s[1..]);
      }
    }
  }

  lemma MatchOverStr(text: string, i: nat, stack: seq<char>, quote: char, s: string)
    requires stack != [] && (quote == '"' || quote == '\'')
    requires At(text, i, [quote] + (s + [quote])) && StaysQuoted(s, quote)
    ensures MatchFrom(text, i, stack, None) == MatchFrom(text, i + |s| + 2, stack, None)
  {
    QuoteAt(text, i, quote, s);
    MatchOverQuoted(text, i + 1, stack, quote, s);
  }

  lemma MatchOverChar(text: string, i: nat, stack: seq<char>, c: StrChar, rest: string)
    requires stack != [] && IsStrChar(c, '`') && At(text, i, PrintChar(c) + rest) && rest != ""
    requires c == Char('$') ==> rest[0] != '{'
    ensures At(text, i + |PrintChar(c)|, rest)
    ensures MatchFrom(text, i, stack, Some('`')) == MatchFrom(text, i + |PrintChar(c)|, stack, Some('`'))
  {
    AtBoth(text, i, PrintChar(c), rest);
    assert text[i + 0] == PrintChar(c)[0];
    assert text[i + |PrintChar(c)| + 0] == rest[0];
  }

  lemma ExpressionAt(text: string, i: nat, body: string, rest: string)
    requires At(text, i, "${" + (body + ("}" + rest)))
    ensures
      var close := i + 2 + |body|;
      && text[i] == '$' && text[i + 1] == '{' && At(text, i + 2, body)
      && close < |text| && text[close] == '}' && At(text, close + 1, rest)
  {
    AtBoth(text, i, "${", body + ("}" + rest));
    assert text[i + 0] == "${"[0] && text[i + 1] == "${"[1];
    AtBoth(text, i + 2, body, "}" + rest);
    AtBoth(text, i + 2 + |body|, "}", rest);
    assert text[i + 2 + |body| + 0] == "}"[0];
  }

  /** The inner call of the matcher ends at the brace of its expression. */
  lemma MatchOverExpression(text: string, i: nat, stack: seq<char>, close: nat)
    requires stack != [] && i + 1 < |text| && text[i] == '$' && text[i + 1] == '{'
    requires close < |text| && text[close] == '}'
    requires MatchFrom(text, i + 2, ['}'], None) == MatchFrom(text, close, ['}'], None)
    ensures MatchFrom(text, i, stack, Some('`')) == MatchFrom(text, close + 1, stack, Some('`'))
  {
  }

  lemma TextBeforeBacktick(c: StrChar, rest: Parts)
    requires IsTemplate(Text(c, rest))
    ensures PrintParts(Text(c, rest)) + "`" == PrintChar(c) + (PrintParts(rest) + "`")
    ensures c == Char('$') ==> (PrintParts(rest) + "`")[0] != '{'
  {
  }

  lemma ExpressionBeforeBacktick(body: Tokens, rest: Parts)
    ensures PrintParts(Expression(body, rest)) + "`" == "${" + (Print(body) + ("}" + (PrintParts(rest) + "`")))
  {
  }

  lemma {:induction false} MatchOverParts(text: string, i: nat, stack: seq<char>, p: Parts)
    requires stack != [] && IsTemplate(p) && At(text, i, PrintParts(p) + "`")
    ensures MatchFrom(text, i, stack, Some('`')) == MatchFrom(text, i + |PrintParts(p)|, stack, Some('`'))
    decreases p
  {
    hide MatchFrom, At, PrintChar;
    match p
    case Stop =>
    case Text(c, rest) =>
      TextBeforeBacktick(c, rest);
      MatchOverChar(text, i, stack, c, PrintParts(rest) + "`");
      MatchOverParts(text, i + |PrintChar(c)|, stack, rest);
    case Expression(body, rest) =>
      var close := i + 2 + |Print(body)|;
      ExpressionBeforeBacktick(body, rest);
      ExpressionAt(text, i, Print(body), PrintParts(rest) + "`");
      MatchOverTokens(text, i + 2, ['}'], body);
      MatchOverExpression(text, i, stack, close);
      MatchOverParts(text, close + 1, stack, rest);
  }

  lemma MatchOverGroup(text: string, i: nat, stack: seq<char>, close: nat)
    requires stack != [] && i < |text| && close < |text| && IsPair(text[i], text[close])
    requires MatchFrom(text, i + 1, stack + [text[close]], None) == MatchFrom(text, close, stack + [text[close]], None)
    ensures MatchFrom(text, i, stack, None) == MatchFrom(text, close + 1, stack, None)
  {
  }

  lemma MatchOverPlain(text: string, i: nat, stack: seq<char>, c: char)
    requires stack != [] && All(stack, IsCloser) && i < |text| && text[i] == c && IsPlain(c)
    ensures MatchFrom(text, i, stack, None) == MatchFrom(text, i + 1, stack, None)
  {
  }

  lemma MatchOverTemplate(text: string, i: nat, stack: seq<char>, close: nat)
    requires stack != [] && i < close < |text| && text[i] == '`' && text[close] == '`'
    requires MatchFrom(text, i + 1, stack, Some('`')) == MatchFrom(text, close, stack, Some('`'))
    ensures MatchFrom(text, i, stack, None) == MatchFrom(text, close + 1, stack, None)
  {
  }

  lemma {:induction false} MatchOverToken(text: string, i: nat, stack: seq<char>, t: Token)
    requires stack != [] && All(stack, IsCloser) && IsToken(t) && At(text, i, PrintToken(t))
    ensures MatchFrom(text, i, stack, None) == MatchFrom(text, i + |PrintToken(t)|, stack, None)
    decreases t
  {
    hide MatchFrom;
    match t
    case Plain(c) =>
      assert text[i + 0] == [c][0];
      MatchOverPlain(text, i, stack, c);
    case Group(open, body, close) =>
      GroupAt(text, i, open, Print(body), close);
      MatchOverTokens(text, i + 1, stack + [close], body);
      MatchOverGroup(text, i, stack, i + 1 + |Print(body)|);
    case Str(quote, chars) =>
      CharsStayQuoted(chars, quote);
      MatchOverStr(text, i, stack, quote, PrintChars(chars));
    case Template(parts) =>
      var close := i + 1 + |PrintParts(parts)|;
      QuoteAt(text, i, '`', PrintParts(parts));
      MatchOverParts(text, i + 1, stack, parts);
      MatchOverTemplate(text, i, stack, close);
  }

  lemma {:induction false} MatchOverTokens(text: string, i: nat, stack: seq<char>, ts: Tokens)
    requires stack != [] && All(stack, IsCloser) && IsTokens(ts) && At(text, i, Print(ts))
    ensures MatchFrom(text, i, stack, None) == MatchFrom(text, i + |Print(ts)|, stack, None)
    decreases ts
  {
    hide MatchFrom;
    if ts.More? {
      AtBoth(text, i, PrintToken(ts.token), Print(ts.rest));
      MatchOverToken(text, i, stack, ts.token);
      MatchOverTokens(text, i + |PrintToken(ts.token)|, stack, ts.rest);
    }
  }

  /** Whatever stands before and after a call, the bracket that ends it is found; template
      literals may be nested in it to any depth. */
  lemma OwnBracketIsFound(before: string, open: char, body: Tokens, close: char, after: string)
    requires IsPair(open, close) && IsTokens(body)
    ensures
      var text := before + ([open] + (Print(body) + [close])) + after;
      IsOpener(open) && MatchFrom(text, |before| + 1, [CloserOf(open)], None) == |before| + 1 + |Print(body)|
  {
    var call := [open] + (Print(body) + [close]);
    var text := before + call + after;
    forall k | 0 <= k < |call|
      ensures text[|before| + k] == call[k]
    {
    }
    GroupAt(text, |before|, open, Print(body), close);
    MatchOverTokens(text, |before| + 1, [close], body);
  }

  // ----- split_top_level

  lemma {:induction false} PiecesOverQuoted(text: string, i: nat, start: nat, depth: int, quote: char, s: string)
    requires start <= i && At(text, i, s) && StaysQuoted(s, quote)
    ensures Pieces(text, i, start, depth, Some(quote)) == Pieces(text, i + |s|, start, depth, Some(quote))
    decreases |s|
  {
    if s != "" {
      AtTail(text, i, s);
      if s[0] == '\\' {
        AtTail(text, i + 1, s[1..]);
        assert s[1..][1..] == s[2..];
        PiecesOverQuoted(text, i + 2, start, depth, quote, s[2..]);
      } else {
        PiecesOverQuoted(text, i + 1, start, depth, quote, s[1..]);
      }
    }
  }

  lemma PiecesOverStr(text: string, i: nat, start: nat, depth: int, quote: char, s: string)
    requires start <= i && IsMark(quote)
    requires At(text, i, [quote] + (s + [quote])) && StaysQuoted(s, quote)
    ensures Pieces(text, i, start, depth, None) == Pieces(text, i + |s| + 2, start, depth, None)
  {
    QuoteAt(text, i, quote, s);
    PiecesOverQuoted(text, i + 1, start, depth, quote, s);
  }

  lemma PiecesOverPlain(text: string, i: nat, start: nat, depth: int, c: char)
    requires start <= i < |text| && text[i] == c && IsPlain(c) && (c != ',' || depth != 0)
    ensures Pieces(text, i, start, depth, None) == Pieces(text, i + 1, start, depth, None)
  {
  }

  lemma PiecesOverGroup(text: string, i: nat, start: nat, depth: int, close: nat)
    requires start <= i < close < |text| && IsPair(text[i], text[close])
    requires Pieces(text, i + 1, start, depth + 1, None) == Pieces(text, close, start, depth + 1, None)
    ensures Pieces(text, i, start, depth, None) == Pieces(text, close + 1, start, depth, None)
  {
  }

  lemma PiecesOverBacktick(text: string, i: nat, start: nat, depth: int, quote: Option<char>)
    requires start <= i < |text| && text[i] == '`' && (quote == None || quote == Some('`'))
    ensures Pieces(text, i, start, depth, quote)
         == Pieces(text, i + 1, start, depth, if quote == None then Some('`') else None)
  {
  }

  lemma PiecesInBackticks(text: string, i: nat, start: nat, depth: int)
    requires start <= i < |text| && text[i] != '`' && text[i] != '\\'
    ensures Pieces(text, i, start, depth, Some('`')) == Pieces(text, i + 1, start, depth, Some('`'))
  {
  }

  lemma PiecesOverQuietChar(text: string, i: nat, start: nat, depth: int, c: StrChar, rest: Parts)
    requires start <= i && IsStrChar(c, '`') && At(text, i, PrintChar(c) + PrintParts(rest))
    ensures At(text, i + |PrintChar(c)|, PrintParts(rest))
    ensures Pieces(text, i, start, depth, Some('`')) == Pieces(text, i + |PrintChar(c)|, start, depth, Some('`'))
  {
    hide Pieces;
    AtBoth(text, i, PrintChar(c), PrintParts(rest));
    CharStaysQuoted(c, '`');
    PiecesOverQuoted(text, i, start, depth, '`', PrintChar(c));
  }

  lemma PiecesOverExposedChar(text: string, i: nat, start: nat, depth: int, c: StrChar)
    requires start <= i && At(text, i, PrintChar(c)) && (c.c == ',' ==> depth != 0) && !IsMark(c.c)
    ensures Pieces(text, i, start, depth, None)
         == Pieces(text, i + |PrintChar(c)|, start, DepthAfter(c.c, depth), None)
  {
    assert text[i + 0] == PrintChar(c)[0];
    if c.Escape? {
      assert text[i + 1] == PrintChar(c)[1];
    }
  }

  lemma {:induction false} PiecesOverToken(text: string, i: nat, start: nat, depth: nat, t: Token)
    requires start <= i && IsToken(t) && ReadableToken(t) && At(text, i, PrintToken(t))
    requires depth > 0 || (t != Plain(',') && !TokenExposes(t))
    ensures Pieces(text, i, start, depth, None) == Pieces(text, i + |PrintToken(t)|, start, depth, None)
    decreases t
  {
    hide Pieces;
    match t
    case Plain(c) =>
      assert text[i + 0] == [c][0];
      PiecesOverPlain(text, i, start, depth, c);
    case Group(open, body, close) =>
      GroupAt(text, i, open, Print(body), close);
      PiecesOverTokens(text, i + 1, start, depth + 1, body);
      PiecesOverGroup(text, i, start, depth, i + 1 + |Print(body)|);
    case Str(quote, chars) =>
      CharsStayQuoted(chars, quote);
      PiecesOverStr(text, i, start, depth, quote, PrintChars(chars));
    case Template(parts) =>
      QuoteAt(text, i, '`', PrintParts(parts));
      PiecesOverBacktick(text, i, start, depth, None);
      PiecesOverParts(text, i + 1, start, depth, parts);
      PiecesOverBacktick(text, i + 1 + |PrintParts(parts)|, start, depth, Some('`'));
  }

  lemma {:induction false} PiecesOverTokens(text: string, i: nat, start: nat, depth: nat, ts: Tokens)
    requires start <= i && IsTokens(ts) && Readable(ts) && At(text, i, Print(ts))
    requires depth > 0 || (IsArgument(ts) && !ExposesComma(ts))
    ensures Pieces(text, i, start, depth, None) == Pieces(text, i + |Print(ts)|, start, depth, None)
    decreases ts, 0
  {
    hide Pieces;
    if ts.More? {
      AtBoth(text, i, PrintToken(ts.token), Print(ts.rest));
      PiecesOverToken(text, i, start, depth, ts.token);
      PiecesOverTokens(text, i + |PrintToken(ts.token)|, start, depth, ts.rest);
    }
  }

  /** A template literal outside quotes: its text and its expressions lie between backticks. */
  lemma {:induction false} PiecesOverParts(text: string, i: nat, start: nat, depth: nat, p: Parts)
    requires start <= i && IsTemplate(p) && QuietParts(p) && At(text, i, PrintParts(p))
    requires depth > 0 || !PartsExpose(p)
    ensures Pieces(text, i, start, depth, Some('`')) == Pieces(text, i + |PrintParts(p)|, start, depth, Some('`'))
    decreases p
  {
    hide Pieces;
    match p
    case Stop =>
    case Text(c, rest) =>
      PiecesOverQuietChar(text, i, start, depth, c, rest);
      PiecesOverParts(text, i + |PrintChar(c)|, start, depth, rest);
    case Expression(body, rest) =>
      var close := i + 2 + |Print(body)|;
      ExpressionAt(text, i, Print(body), PrintParts(rest));
      PiecesInBackticks(text, i, start, depth);
      PiecesInBackticks(text, i + 1, start, depth);
      PiecesOverQuietTokens(text, i + 2, start, depth, body);
      PiecesInBackticks(text, close, start, depth);
      PiecesOverParts(text, close + 1, start, depth, rest);
  }

  lemma CharAt(text: string, i: nat, c: char)
    requires At(text, i, [c])
    ensures i < |text| && text[i] == c
  {
    assert text[i + 0] == [c][0];
  }

  lemma {:induction false} PiecesOverQuietTokens(text: string, i: nat, start: nat, depth: nat, ts: Tokens)
    requires start <= i && IsTokens(ts) && Quiet(ts) && At(text, i, Print(ts))
    requires depth > 0 || !BodyExposes(ts)
    ensures Pieces(text, i, start, depth, Some('`')) == Pieces(text, i + |Print(ts)|, start, depth, Some('`'))
    decreases ts
  {
    hide Pieces, At, PrintToken, IsToken, QuietToken, InnerExposes;
    if ts.More? {
      AtBoth(text, i, PrintToken(ts.token), Print(ts.rest));
      PiecesOverQuietToken(text, i, start, depth, ts.token);
      PiecesOverQuietTokens(text, i + |PrintToken(ts.token)|, start, depth, ts.rest);
    }
  }

  lemma {:induction false} PiecesOverQuietToken(text: string, i: nat, start: nat, depth: nat, t: Token)
    requires start <= i && IsToken(t) && QuietToken(t) && At(text, i, PrintToken(t))
    requires depth > 0 || !InnerExposes(t)
    ensures Pieces(text, i, start, depth, Some('`')) == Pieces(text, i + |PrintToken(t)|, start, depth, Some('`'))
    decreases t
  {
    hide Pieces, At, StaysQuoted, PrintChars, Exposed, TextHasComma;
    match t
    case Plain(c) =>
      CharAt(text, i, c);
      PiecesInBackticks(text, i, start, depth);
    case Group(open, body, close) =>
      GroupAt(text, i, open, Print(body), close);
      PiecesInBackticks(text, i, start, depth);
      PiecesOverQuietTokens(text, i + 1, start, depth, body);
      PiecesInBackticks(text, i + 1 + |Print(body)|, start, depth);
    case Str(quote, chars) =>
      QuoteAt(text, i, quote, PrintChars(chars));
      CharsStayQuoted(chars, '`');
      PiecesInBackticks(text, i, start, depth);
      PiecesOverQuoted(text, i + 1, start, depth, '`', PrintChars(chars));
      PiecesInBackticks(text, i + 1 + |PrintChars(chars)|, start, depth);
    case Template(parts) =>
      QuoteAt(text, i, '`', PrintParts(parts));
      PiecesOverBacktick(text, i, start, depth, Some('`'));
      PiecesOverExposed(text, i + 1, start, depth, parts, 0);
      PiecesOverBacktick(text, i + 1 + |PrintParts(parts)|, start, depth, None);
  }

  /** An inner template literal: its text is outside quotes, its expressions are groups in braces;
      `open` brackets of the text are open. */
  lemma {:induction false} PiecesOverExposed(text: string, i: nat, start: nat, depth: nat, p: Parts, open: nat)
    requires start <= i && IsTemplate(p) && Exposed(p, open) && At(text, i, PrintParts(p))
    requires depth > 0 || !TextHasComma(p, open)
    ensures Pieces(text, i, start, depth + open, None) == Pieces(text, i + |PrintParts(p)|, start, depth, None)
    decreases p
  {
    hide Pieces;
    match p
    case Stop =>
    case Text(c, rest) =>
      AtBoth(text, i, PrintChar(c), PrintParts(rest));
      PiecesOverExposedChar(text, i, start, depth + open, c);
      PiecesOverExposed(text, i + |PrintChar(c)|, start, depth, rest, DepthAfter(c.c, open));
    case Expression(body, rest) =>
      PiecesOverExposedExpression(text, i, start, depth + open, body, rest);
      PiecesOverExposed(text, i + 3 + |Print(body)|, start, depth, rest, open);
  }

  lemma {:induction false} PiecesOverExposedExpression(
      text: string, i: nat, start: nat, depth: nat, body: Tokens, rest: Parts)
    requires start <= i && IsTokens(body) && Readable(body)
    requires At(text, i, PrintParts(Expression(body, rest)))
    ensures
      var next := i + 3 + |Print(body)|;
      At(text, next, PrintParts(rest)) && Pieces(text, i, start, depth, None) == Pieces(text, next, start, depth, None)
    decreases body, 1
  {
    hide Pieces;
    ExpressionAt(text, i, Print(body), PrintParts(rest));
    PiecesOverPlain(text, i, start, depth, '$');
    PiecesOverTokens(text, i + 2, start, depth + 1, body);
    PiecesOverGroup(text, i + 1, start, depth, i + 2 + |Print(body)|);
  }

  // ----- an exposed comma cuts its argument

  /** The first piece ends before position `end`. */
  predicate CutBefore(pieces: seq<string>, start: nat, end: nat) {
    pieces != [] && start + |pieces[0]| < end
  }

  lemma CutAtComma(text: string, i: nat, start: nat, c: StrChar)
    requires start <= i && At(text, i, PrintChar(c)) && c.c == ','
    ensures CutBefore(Pieces(text, i, start, 0, None), start, i + |PrintChar(c)|)
  {
    assert text[i + 0] == PrintChar(c)[0];
    if c.Escape? {
      assert text[i + 1] == PrintChar(c)[1];
    }
  }

  lemma {:induction false} CutInText(text: string, i: nat, start: nat, p: Parts, open: nat)
    requires start <= i && IsTemplate(p) && Exposed(p, open) && TextHasComma(p, open) && At(text, i, PrintParts(p))
    ensures CutBefore(Pieces(text, i, start, open, None), start, i + |PrintParts(p)|)
    decreases p
  {
    hide Pieces;
    match p
    case Text(c, rest) =>
      AtBoth(text, i, PrintChar(c), PrintParts(rest));
      if c.c == ',' && open == 0 {
        CutAtComma(text, i, start, c);
      } else {
        PiecesOverExposedChar(text, i, start, open, c);
        CutInText(text, i + |PrintChar(c)|, start, rest, DepthAfter(c.c, open));
      }
    case Expression(body, rest) =>
      PiecesOverExposedExpression(text, i, start, open, body, rest);
      CutInText(text, i + 3 + |Print(body)|, start, rest, open);
  }

  lemma {:induction false} CutInBody(text: string, i: nat, start: nat, ts: Tokens)
    requires start <= i && IsTokens(ts) && Quiet(ts) && BodyExposes(ts) && At(text, i, Print(ts))
    ensures CutBefore(Pieces(text, i, start, 0, Some('`')), start, i + |Print(ts)|)
    decreases ts
  {
    hide Pieces;
    AtBoth(text, i, PrintToken(ts.token), Print(ts.rest));
    if InnerExposes(ts.token) {
      CutInInner(text, i, start, ts.token);
    } else {
      PiecesOverQuietToken(text, i, start, 0, ts.token);
      CutInBody(text, i + |PrintToken(ts.token)|, start, ts.rest);
    }
  }

  lemma {:induction false} CutInInner(text: string, i: nat, start: nat, t: Token)
    requires start <= i && IsToken(t) && QuietToken(t) && InnerExposes(t) && At(text, i, PrintToken(t))
    ensures CutBefore(Pieces(text, i, start, 0, Some('`')), start, i + |PrintToken(t)|)
    decreases t
  {
    hide Pieces;
    match t
    case Group(open, body, close) =>
      GroupAt(text, i, open, Print(body), close);
      PiecesInBackticks(text, i, start, 0);
      CutInBody(text, i + 1, start, body);
    case Template(parts) =>
      QuoteAt(text, i, '`', PrintParts(parts));
      PiecesOverBacktick(text, i, start, 0, Some('`'));
      CutInText(text, i + 1, start, parts, 0);
  }

  lemma {:induction false} CutInParts(text: string, i: nat, start: nat, p: Parts)
    requires start <= i && IsTemplate(p) && QuietParts(p) && PartsExpose(p) && At(text, i, PrintParts(p))
    ensures CutBefore(Pieces(text, i, start, 0, Some('`')), start, i + |PrintParts(p)|)
    decreases p
  {
    hide Pieces;
    match p
    case Text(c, rest) =>
      PiecesOverQuietChar(text, i, start, 0, c, rest);
      CutInParts(text, i + |PrintChar(c)|, start, rest);
    case Expression(body, rest) =>
      var close := i + 2 + |Print(body)|;
      ExpressionAt(text, i, Print(body), PrintParts(rest));
      PiecesInBackticks(text, i, start, 0);
      PiecesInBackticks(text, i + 1, start, 0);
      if BodyExposes(body) {
        CutInBody(text, i + 2, start, body);
      } else {
        PiecesOverQuietTokens(text, i + 2, start, 0, body);
        PiecesInBackticks(text, close, start, 0);
        CutInParts(text, close + 1, start, rest);
      }
  }

  lemma {:induction false} CutInTokens(text: string, i: nat, start: nat, ts: Tokens)
    requires start <= i && IsTokens(ts) && Readable(ts) && IsArgument(ts) && ExposesComma(ts) && At(text, i, Print(ts))
    ensures CutBefore(Pieces(text, i, start, 0, None), start, i + |Print(ts)|)
    decreases ts
  {
    hide Pieces;
    AtBoth(text, i, PrintToken(ts.token), Print(ts.rest));
    if TokenExposes(ts.token) {
      QuoteAt(text, i, '`', PrintParts(ts.token.parts));
      PiecesOverBacktick(text, i, start, 0, None);
      CutInParts(text, i + 1, start, ts.token.parts);
    } else {
      PiecesOverToken(text, i, start, 0, ts.token);
      CutInTokens(text, i + |PrintToken(ts.token)|, start, ts.rest);
    }
  }

  // ----- argument lists

  function Append(a: Tokens, b: Tokens): Tokens {
    match a
    case Nothing => b
    case More(t, rest) => More(t, Append(rest, b))
  }

  /** The arguments with commas between them. */
  function Join(args: seq<Tokens>): Tokens {
    if args == [] then Nothing
    else if |args| == 1 then args[0]
    else Append(args[0], More(Plain(','), Join(args[1..])))
  }

  predicate AreArguments(args: seq<Tokens>) {
    forall a :: a in args ==> IsTokens(a) && Readable(a) && IsArgument(a)
  }

  /** What the splitter returns: the printed arguments, without a blank last one. */
  function Printed(args: seq<Tokens>): seq<string> {
    if args == [] then []
    else if |args| == 1 then (if All(Print(args[0]), IsSpace) then [] else [Print(args[0])])
    else [Print(args[0])] + Printed(args[1..])
  }

  lemma {:induction false} AppendPrints(a: Tokens, b: Tokens)
    ensures Print(Append(a, b)) == Print(a) + Print(b)
    ensures IsTokens(a) && IsTokens(b) ==> IsTokens(Append(a, b))
  {
    if a.More? {
      AppendPrints(a.rest, b);
    }
  }

  lemma {:induction false} JoinIsTokens(args: seq<Tokens>)
    requires AreArguments(args)
    ensures IsTokens(Join(args))
  {
    if |args| == 1 {
      assert args[0] in args;
    } else if |args| > 1 {
      assert args[0] in args;
      JoinIsTokens(args[1..]);
      assert IsTokens(More(Plain(','), Join(args[1..])));
      AppendPrints(args[0], More(Plain(','), Join(args[1..])));
    }
  }

  lemma PiecesAtComma(text: string, i: nat, start: nat)
    requires start <= i < |text| && text[i] == ','
    ensures Pieces(text, i, start, 0, None) == [text[start..i]] + Pieces(text, i + 1, i + 1, 0, None)
  {
  }

  predicate NoneExposesComma(args: seq<Tokens>) {
    forall a :: a in args ==> !ExposesComma(a)
  }

  lemma JoinPrints(args: seq<Tokens>)
    requires |args| > 1
    ensures Print(Join(args)) == Print(args[0]) + ("," + Print(Join(args[1..])))
  {
    var rest := Join(args[1..]);
    AppendPrints(args[0], More(Plain(','), rest));
    assert Print(More(Plain(','), rest)) == "," + Print(rest);
  }

  lemma {:induction false} PiecesOfJoined(text: string, i: nat, args: seq<Tokens>)
    requires AreArguments(args) && args != []
    requires At(text, i, Print(Join(args))) && |text| == i + |Print(Join(args))|
    ensures Pieces(text, i, i, 0, None) == Printed(args) <==> NoneExposesComma(args)
    decreases |args|
  {
    hide Pieces, ExposesComma, At, All, Print, IsTokens, Readable, IsArgument;
    assert args[0] in args;
    if |args| == 1 {
      LastPiece(text, i, args[0]);
    } else {
      JoinPrints(args);
      FirstPiece(text, i, args[0], Print(Join(args[1..])));
      var next := i + |Print(args[0])| + 1;
      PiecesOfJoined(text, next, args[1..]);
      assert args == [args[0]] + args[1..];
      if !ExposesComma(args[0]) {
        SameFirst(Print(args[0]), Pieces(text, next, next, 0, None), Printed(args[1..]));
      }
    }
  }

  lemma SameFirst(first: string, a: seq<string>, b: seq<string>)
    ensures [first] + a == [first] + b <==> a == b
  {
    assert ([first] + a)[1..] == a && ([first] + b)[1..] == b;
  }

  lemma LastPiece(text: string, i: nat, a: Tokens)
    requires IsTokens(a) && Readable(a) && IsArgument(a)
    requires At(text, i, Print(a)) && |text| == i + |Print(a)|
    ensures Pieces(text, i, i, 0, None) == (if All(Print(a), IsSpace) then [] else [Print(a)]) <==> !ExposesComma(a)
  {
    if ExposesComma(a) {
      CutInTokens(text, i, i, a);
    } else {
      PiecesOverTokens(text, i, i, 0, a);
      AtSlice(text, i, Print(a));
      assert text[i..] == text[i..i + |Print(a)|];
    }
  }

  lemma FirstPiece(text: string, i: nat, a: Tokens, rest: string)
    requires IsTokens(a) && Readable(a) && IsArgument(a)
    requires At(text, i, Print(a) + ("," + rest))
    ensures
      var next := i + |Print(a)| + 1;
      && At(text, next, rest)
      && (!ExposesComma(a) ==> Pieces(text, i, i, 0, None) == [Print(a)] + Pieces(text, next, next, 0, None))
      && (ExposesComma(a) ==> Pieces(text, i, i, 0, None) != [] && Pieces(text, i, i, 0, None)[0] != Print(a))
  {
    hide Pieces;
    var comma := i + |Print(a)|;
    AtBoth(text, i, Print(a), "," + rest);
    AtBoth(text, comma, ",", rest);
    assert text[comma + 0] == ","[0];
    if ExposesComma(a) {
      CutInTokens(text, i, i, a);
    } else {
      PiecesOverTokens(text, i, i, 0, a);
      PiecesAtComma(text, comma, i);
      AtSlice(text, i, Print(a));
    }
  }

  /** Reading a call as the check does, first the bracket and then the text between the brackets,
      gives back the printed arguments in order, without a blank last one, if and only if no
      argument exposes a comma to the splitter. The bracket is the right one in any case. */
  lemma CallIsReadBackIff(before: string, open: char, args: seq<Tokens>, close: char, after: string)
    requires IsPair(open, close) && AreArguments(args)
    ensures IsOpener(open)
    ensures
      var text := before + ([open] + (Print(Join(args)) + [close])) + after;
      var end := MatchFrom(text, |before| + 1, [CloserOf(open)], None);
      && |before| < end < |text|
      && text[|before| + 1..end] == Print(Join(args))
      && (Pieces(text[|before| + 1..end], 0, 0, 0, None) == Printed(args) <==> NoneExposesComma(args))
  {
    hide MatchFrom, Pieces;
    JoinIsTokens(args);
    OwnBracketIsFound(before, open, Join(args), close, after);
    var printed := Print(Join(args));
    var text := before + ([open] + (printed + [close])) + after;
    assert text[|before| + 1..|before| + 1 + |printed|] == printed;
    if args == [] {
      NoPieces();
    } else {
      PiecesOfJoined(printed, 0, args);
    }
  }

  lemma NoPieces()
    ensures Pieces("", 0, 0, 0, None) == []
  {
  }

  const NESTED := "`${f(`a,b`)}`"

  lemma NestedFirstPiece()
    ensures Pieces(NESTED, 0, 0, 0, None) == [NESTED[0..7]] + Pieces(NESTED, 8, 8, 0, None)
  {
    var text := NESTED;
    assert Pieces(text, 1, 0, 0, Some('`')) == Pieces(text, 3, 0, 0, Some('`')) == Pieces(text, 5, 0, 0, Some('`'));
    assert Pieces(text, 5, 0, 0, Some('`')) == Pieces(text, 6, 0, 0, None) == Pieces(text, 7, 0, 0, None);
  }

  lemma NestedSecondPiece()
    ensures Pieces(NESTED, 8, 8, 0, None) == [NESTED[8..]]
  {
    var text := NESTED;
    assert Pieces(text, 8, 8, 0, None) == Pieces(text, 9, 8, 0, None) == Pieces(text, 10, 8, 0, Some('`'));
    assert Pieces(text, 10, 8, 0, Some('`')) == Pieces(text, 12, 8, 0, Some('`')) == Pieces(text, 13, 8, 0, None);
    assert text[8..][0] == 'b';
  }

  /** A template literal inside a template literal confuses the splitter: this is one argument. */
  lemma NestedTemplateIsSplit()
    ensures Pieces(NESTED, 0, 0, 0, None) == ["`${f(`a", "b`)}`"]
  {
    hide Pieces;
    NestedFirstPiece();
    NestedSecondPiece();
    assert NESTED[8..] == "b`)}`" && NESTED[0..7] == "`${f(`a";
  }

  // ----- texts that are no calls

  lemma WholeAt(text: string)
    ensures At(text, 0, text)
  {
  }

  /** Whatever stands between two brackets of a pair is one piece, commas included. */
  lemma BracketsAreOnePiece(open: char, body: Tokens, close: char)
    requires IsPair(open, close) && IsTokens(body) && Readable(body)
    ensures var text := [open] + (Print(body) + [close]); Pieces(text, 0, 0, 0, None) == [text]
  {
    var token := Group(open, body, close);
    var text := PrintToken(token);
    WholeAt(text);
    PiecesOverToken(text, 0, 0, 0, token);
    assert text[0..] == text && !IsSpace(text[0]);
  }

  /** A call that is not closed runs to the last character of the file. */
  lemma UnclosedRunsOut(before: string, open: char, body: Tokens)
    requires Opens(open) && IsTokens(body)
    ensures
      var text := before + ([open] + Print(body));
      IsOpener(open) && MatchFrom(text, |before| + 1, [CloserOf(open)], None) == |text| - 1
  {
    var text := before + ([open] + Print(body));
    assert forall k :: 0 <= k < |Print(body)| ==> text[|before| + 1 + k] == Print(body)[k];
    MatchOverTokens(text, |before| + 1, [CloserOf(open)], body);
  }

  /** A closing bracket of another kind does not end the call. */
  lemma OtherCloserIsIgnored(before: string, open: char, a: Tokens, other: char, b: Tokens, close: char, after: string)
    requires IsPair(open, close) && Closes(other) && other != close && IsTokens(a) && IsTokens(b)
    ensures
      var call := [open] + (Print(a) + ([other] + (Print(b) + [close])));
      IsOpener(open) && MatchFrom(before + call + after, |before| + 1, [CloserOf(open)], None) == |before| + |call| - 1
  {
    var call := [open] + (Print(a) + ([other] + (Print(b) + [close])));
    MiddleAt(before, call, after);
    hide *;
    CloserFits(open, close);
    OtherCloserAt(before + call + after, |before|, open, a, other, b, close);
  }

  lemma MiddleAt(before: string, call: string, after: string)
    ensures At(before + call + after, |before|, call)
  {
  }

  lemma CloserFits(open: char, close: char)
    requires IsPair(open, close)
    ensures IsOpener(open) && CloserOf(open) == close && Closes(close)
  {
  }

  lemma OtherCloserAt(text: string, i: nat, open: char, a: Tokens, other: char, b: Tokens, close: char)
    requires IsPair(open, close) && Closes(other) && other != close && Closes(close) && IsTokens(a) && IsTokens(b)
    requires At(text, i, [open] + (Print(a) + ([other] + (Print(b) + [close]))))
    ensures MatchFrom(text, i + 1, [close], None) == i + |Print(a)| + |Print(b)| + 2
  {
    hide *;
    var inner, stray := [other] + (Print(b) + [close]), i + 1 + |Print(a)|;
    AtBoth(text, i, [open], Print(a) + inner);
    AtBoth(text, i + 1, Print(a), inner);
    PairCloses(open, close);
    MatchOverTokens(text, i + 1, [close], a);
    GroupAt(text, stray, other, Print(b), close);
    StrayStep(text, stray, close);
    MatchOverTokens(text, stray + 1, [close], b);
    LastStep(text, stray + 1 + |Print(b)|, close);
  }

  lemma PairCloses(open: char, close: char)
    requires IsPair(open, close)
    ensures All([close], IsCloser)
  {
  }

  lemma StrayStep(text: string, i: nat, close: char)
    requires i < |text| && Closes(text[i]) && text[i] != close
    ensures MatchFrom(text, i, [close], None) == MatchFrom(text, i + 1, [close], None)
  {
  }

  lemma LastStep(text: string, i: nat, close: char)
    requires i < |text| && text[i] == close && Closes(close)
    ensures MatchFrom(text, i, [close], None) == i
  {
  }

  /** Behind a quote that is not closed no comma cuts. */
  lemma OpenQuoteHoldsCommas(mark: char, s: string)
    requires IsMark(mark) && StaysQuoted(s, mark)
    ensures Pieces([mark] + s, 0, 0, 0, None) == [[mark] + s]
  {
    var text := [mark] + s;
    assert At(text, 1, s);
    assert Pieces(text, 0, 0, 0, None) == Pieces(text, 1, 0, 0, Some(mark));
    PiecesOverQuoted(text, 1, 0, 0, mark, s);
    assert text[0..] == text && !IsSpace(text[0]);
  }

  lemma {:induction false} PiecesOverPlainText(text: string, i: nat, start: nat, depth: int, s: string)
    requires start <= i && At(text, i, s) && All(s, IsPlain) && (depth == 0 ==> ',' !in s)
    ensures Pieces(text, i, start, depth, None) == Pieces(text, i + |s|, start, depth, None)
    decreases |s|
  {
    if s != "" {
      AtTail(text, i, s);
      PiecesOverPlain(text, i, start, depth, s[0]);
      assert All(s[1..], IsPlain);
      PiecesOverPlainText(text, i + 1, start, depth, s[1..]);
    }
  }

  /** Behind a closing bracket too many no comma cuts. */
  lemma StrayCloserHoldsCommas(close: char, s: string)
    requires Closes(close) && All(s, IsPlain)
    ensures Pieces([close] + s, 0, 0, 0, None) == [[close] + s]
  {
    var text := [close] + s;
    assert At(text, 1, s);
    assert Pieces(text, 0, 0, 0, None) == Pieces(text, 1, 0, -1, None);
    PiecesOverPlainText(text, 1, 0, -1, s);
    assert text[0..] == text && !IsSpace(text[0]);
  }
}
