/** What trimming, word splitting and line splitting do to a text put together from its pieces. */
module TextLaws {
  import opened Text
  import opened Fields

  /** The characters that end a line, and the ASCII characters that count as blank. */
  lemma BlanksAreThese(c: char)
    ensures IsLineBreak(c) <==>
      c == '\n' || c == '\U{b}' || c == '\U{c}' || c == '\r' || c == '\U{1c}' || c == '\U{1d}' || c == '\U{1e}'
      || c == '\U{85}' || c == '\U{2028}' || c == '\U{2029}'
    ensures c as int < 0x80 ==> (IsSpace(c) <==> 9 <= c as int <= 13 || 28 <= c as int <= 32)
    ensures c as int < 0x80 ==> (IsDecimal(c) <==> 48 <= c as int <= 57)
  {
  }

  predicate IsBlankText(s: string) { All(s, IsSpace) }

  // ----- trimming

  lemma {:induction false} StripLeftOfPadded(before: string, s: string)
    requires IsBlankText(before)
    ensures StripLeft(before + s) == StripLeft(s)
    decreases |before|
  {
    if before == "" {
      assert before + s == s;
    } else {
      assert (before + s)[1..] == before[1..] + s;
      assert IsBlankText(before[1..]);
      StripLeftOfPadded(before[1..], s);
    }
  }

  lemma {:induction false} StripRightOfPadded(s: string, after: string)
    requires IsBlankText(after)
    ensures StripRight(s + after) == StripRight(s)
    decreases |after|
  {
    if after == "" {
      assert s + after == s;
    } else {
      var shorter := after[..|after| - 1];
      assert (s + after)[..|s + after| - 1] == s + shorter;
      assert IsBlankText(shorter);
      StripRightOfPadded(s, shorter);
    }
  }

  /** Trimming takes off the blanks on both sides and nothing else. */
  lemma TrimmedTextComesBack(before: string, s: string, after: string)
    requires IsBlankText(before) && IsBlankText(after) && IsTrimmed(s)
    ensures Strip(before + (s + after)) == s
  {
    StripLeftOfPadded(before, s + after);
    if s == "" {
      assert s + after == after && after + "" == after;
      StripLeftOfPadded(after, "");
    } else {
      assert StripLeft(s + after) == s + after;
      StripRightOfPadded(s, after);
    }
  }

  // ----- words

  lemma WordsOfStep(s: string)
    requires |s| > 1 && !IsSpace(s[0]) && !IsSpace(s[1])
    ensures Words(s[1..]) != []
    ensures Words(s) == [[s[0]] + Words(s[1..])[0]] + Words(s[1..])[1..]
  {
    WordsOfNonBlank(s[1..]);
  }

  lemma WordsOfBlank(blank: char, s: string)
    requires IsSpace(blank)
    ensures Words([blank] + s) == Words(s)
  {
    assert ([blank] + s)[1..] == s;
  }

  lemma WordOfOne(c: char, s: string)
    requires !IsSpace(c) && (s != "" ==> IsSpace(s[0]))
    ensures Words([c] + s) == [[c]] + Words(s)
  {
    assert ([c] + s)[1..] == s;
  }

  lemma AddToFirst(c: char, words: seq<string>, more: seq<string>)
    requires words != []
    ensures [[c] + (words + more)[0]] + (words + more)[1..] == [[c] + words[0]] + words[1..] + more
  {
  }

  /** A blank separates the words before it from those behind it. */
  lemma {:induction false} BlankSeparatesWords(a: string, blank: char, b: string)
    requires IsSpace(blank)
    ensures Words(a + ([blank] + b)) == Words(a) + Words(b)
    decreases |a|
  {
    hide Words, IsSpace;
    var s, more := a + ([blank] + b), [blank] + b;
    if a == "" {
      assert s == more && Words("") == [] by { NoWords(); }
      WordsOfBlank(blank, b);
    } else {
      var rest := a[1..];
      assert a == [a[0]] + rest && s == [a[0]] + (rest + more) && s[1..] == rest + more;
      BlankSeparatesWords(rest, blank, b);
      if IsSpace(a[0]) {
        WordsOfBlank(a[0], rest);
        WordsOfBlank(a[0], rest + more);
      } else if rest == "" || IsSpace(rest[0]) {
        WordOfOne(a[0], rest);
        WordOfOne(a[0], rest + more);
        assert [[a[0]]] + (Words(rest) + Words(b)) == [[a[0]]] + Words(rest) + Words(b);
      } else {
        WordsOfStep(a);
        WordsOfStep(s);
        AddToFirst(a[0], Words(rest), Words(b));
      }
    }
  }

  lemma NoWords()
    ensures Words("") == []
  {
  }

  lemma {:induction false} WordOfItself(w: string)
    requires IsOneWord(w)
    ensures Words(w) == [w]
    decreases |w|
  {
    if |w| == 1 {
      assert Words(w[1..]) == [] && [w[0]] == w;
    } else {
      assert IsOneWord(w[1..]);
      WordOfItself(w[1..]);
      WordsOfStep(w);
      assert [w[0]] + w[1..] == w;
    }
  }

  /** Words written with single blanks between them are read back. */
  lemma {:induction false} WordsAreReadBack(words: seq<string>)
    requires words != [] && forall w :: w in words ==> IsOneWord(w)
    ensures Words(JoinWith(words, ' ')) == words
    decreases |words|
  {
    assert words[0] in words;
    WordOfItself(words[0]);
    if |words| > 1 {
      WordsAreReadBack(words[1..]);
      BlankSeparatesWords(words[0], ' ', JoinWith(words[1..], ' '));
      assert words == [words[0]] + words[1..];
    } else {
      assert words == [words[0]];
    }
  }

  // ----- lines

  /** Every line break ends a line; a carriage return takes a line feed behind it along. */
  lemma {:induction false} LineBreakEndsLine(line: string, c: char, rest: string)
    requires OneLine(line) && IsLineBreak(c)
    ensures c == '\r' && rest != "" && rest[0] == '\n' ==>
      SplitLines(line + ([c] + rest)) == [line] + SplitLines(rest[1..])
    ensures !(c == '\r' && rest != "" && rest[0] == '\n') ==>
      SplitLines(line + ([c] + rest)) == [line] + SplitLines(rest)
    decreases |line|
  {
    var text := line + ([c] + rest);
    if line == "" {
      assert text[1..] == rest;
      assert |text| > 1 ==> text[1] == rest[0] && text[2..] == rest[1..];
    } else {
      LineBreakEndsLine(line[1..], c, rest);
      assert text[1..] == line[1..] + ([c] + rest);
      assert [line[0]] + line[1..] == line;
    }
  }

  /** The last line needs no line break. */
  lemma {:induction false} LastLine(line: string)
    requires line != "" && OneLine(line)
    ensures SplitLines(line) == [line]
    decreases |line|
  {
    if |line| == 1 {
      assert SplitLines(line[1..]) == [];
      assert [line[0]] == line;
    } else {
      LastLine(line[1..]);
      assert [line[0]] + line[1..] == line;
    }
  }
}
