/** Splitting, joining and trimming text, as the Python scripts do it. */
module Fields {
  import opened Text

  /** `s.split(sep)`: the pieces between the separators, empty ones included. */
  function SplitOn(s: string, sep: char): (parts: seq<string>)
    ensures parts != []
  {
    if s == "" then [""]
    else
      var rest := SplitOn(s[1..], sep);
      if s[0] == sep then [""] + rest else [[s[0]] + rest[0]] + rest[1..]
  }

  /** `sep.join(parts)` for at least one part */
  function JoinWith(parts: seq<string>, sep: char): string
    requires parts != []
  {
    if |parts| == 1 then parts[0] else parts[0] + ([sep] + JoinWith(parts[1..], sep))
  }

  predicate Without(s: string, c: char) { forall k :: 0 <= k < |s| ==> s[k] != c }

  lemma {:induction false} SplitOfFirst(a: string, sep: char, rest: string)
    requires Without(a, sep)
    ensures SplitOn(a + ([sep] + rest), sep) == [a] + SplitOn(rest, sep)
    decreases |a|
  {
    var s := a + ([sep] + rest);
    if a == "" {
      assert s[1..] == rest;
    } else {
      SplitOfFirst(a[1..], sep, rest);
      assert s[1..] == a[1..] + ([sep] + rest);
      assert [s[0]] + a[1..] == a;
    }
  }

  lemma {:induction false} SplitOfLast(a: string, sep: char)
    requires Without(a, sep)
    ensures SplitOn(a, sep) == [a]
    decreases |a|
  {
    if a != "" {
      SplitOfLast(a[1..], sep);
      assert [a[0]] + a[1..] == a;
    }
  }

  /** Splitting undoes joining of parts that do not hold the separator. */
  lemma {:induction false} SplitUndoesJoin(parts: seq<string>, sep: char)
    requires parts != [] && forall p :: p in parts ==> Without(p, sep)
    ensures SplitOn(JoinWith(parts, sep), sep) == parts
    decreases |parts|
  {
    assert parts[0] in parts;
    if |parts| == 1 {
      SplitOfLast(parts[0], sep);
    } else {
      SplitUndoesJoin(parts[1..], sep);
      SplitOfFirst(parts[0], sep, JoinWith(parts[1..], sep));
    }
  }

  lemma {:induction false} JoinUndoesSplit(s: string, sep: char)
    ensures JoinWith(SplitOn(s, sep), sep) == s
    decreases |s|
  {
    if s != "" {
      var rest := SplitOn(s[1..], sep);
      JoinUndoesSplit(s[1..], sep);
      if s[0] == sep {
        assert ([""] + rest)[1..] == rest;
      } else {
        assert ([[s[0]] + rest[0]] + rest[1..])[1..] == rest[1..];
      }
    }
  }

  lemma {:induction false} SplitPartsAreFree(s: string, sep: char, p: string)
    requires p in SplitOn(s, sep)
    ensures Without(p, sep)
    ensures forall k :: 0 <= k < |p| ==> p[k] in s
    decreases |s|
  {
    if s != "" {
      var rest := SplitOn(s[1..], sep);
      if p in rest {
        SplitPartsAreFree(s[1..], sep, p);
      } else if s[0] != sep {
        assert p == [s[0]] + rest[0];
        SplitPartsAreFree(s[1..], sep, rest[0]);
      }
    }
  }

  // ----- strip

  function StripLeft(s: string): string {
    if s != "" && IsSpace(s[0]) then StripLeft(s[1..]) else s
  }

  function StripRight(s: string): string {
    if s != "" && IsSpace(s[|s| - 1]) then StripRight(s[..|s| - 1]) else s
  }

  function Strip(s: string): string { StripRight(StripLeft(s)) }

  predicate IsTrimmed(s: string) {
    s != "" ==> !IsSpace(s[0]) && !IsSpace(s[|s| - 1])
  }

  lemma StripOfTrimmed(s: string)
    requires IsTrimmed(s)
    ensures Strip(s) == s
  {
  }

  lemma {:induction false} StripLeftIsTrimmed(s: string)
    ensures StripLeft(s) != "" ==> !IsSpace(StripLeft(s)[0])
    ensures forall k :: 0 <= k < |StripLeft(s)| ==> StripLeft(s)[k] in s
    decreases |s|
  {
    if s != "" && IsSpace(s[0]) {
      StripLeftIsTrimmed(s[1..]);
    }
  }

  lemma {:induction false} StripRightIsTrimmed(s: string)
    requires s != "" ==> !IsSpace(s[0])
    ensures IsTrimmed(StripRight(s))
    ensures forall k :: 0 <= k < |StripRight(s)| ==> StripRight(s)[k] in s
    decreases |s|
  {
    if s != "" && IsSpace(s[|s| - 1]) {
      StripRightIsTrimmed(s[..|s| - 1]);
    }
  }

  lemma StripIsTrimmed(s: string)
    ensures IsTrimmed(Strip(s))
    ensures forall k :: 0 <= k < |Strip(s)| ==> Strip(s)[k] in s
  {
    StripLeftIsTrimmed(s);
    StripRightIsTrimmed(StripLeft(s));
  }

  lemma NotBlank(line: string)
    requires line != "" && !IsSpace(line[0])
    ensures Strip(line) != ""
  {
    StripRightKeepsFirst(line);
  }

  lemma {:induction false} StripRightKeepsFirst(s: string)
    requires s != "" && !IsSpace(s[0])
    ensures StripRight(s) != ""
    decreases |s|
  {
    if IsSpace(s[|s| - 1]) {
      StripRightKeepsFirst(s[..|s| - 1]);
    }
  }

  /** `s.split()`: the words between runs of blanks. */
  function Words(s: string): seq<string> {
    if s == "" then []
    else if IsSpace(s[0]) then Words(s[1..])
    else if |s| == 1 || IsSpace(s[1]) then [[s[0]]] + Words(s[1..])
    else
      var rest := Words(s[1..]);
      if rest == [] then [s] else [[s[0]] + rest[0]] + rest[1..]
  }

  predicate IsOneWord(w: string) { w != "" && forall k :: 0 <= k < |w| ==> !IsSpace(w[k]) }

  lemma {:induction false} WordsAreWords(s: string, w: string)
    requires w in Words(s)
    ensures IsOneWord(w)
    ensures forall k :: 0 <= k < |w| ==> w[k] in s
    decreases |s|
  {
    var rest := Words(s[1..]);
    if w in rest {
      WordsAreWords(s[1..], w);
    } else if |s| > 1 && !IsSpace(s[1]) {
      assert rest != [] by { WordsOfNonBlank(s[1..]); }
      WordsAreWords(s[1..], rest[0]);
    }
  }

  lemma WordsOfNonBlank(s: string)
    requires s != "" && !IsSpace(s[0])
    ensures Words(s) != []
  {
  }

  /** Words joined by single blanks are trimmed and stay on one line. */
  lemma {:induction false} JoinedWords(words: seq<string>)
    requires words != [] && forall w :: w in words ==> IsOneWord(w)
    ensures JoinWith(words, ' ') != "" && IsTrimmed(JoinWith(words, ' ')) && OneLine(JoinWith(words, ' '))
    ensures forall k :: 0 <= k < |JoinWith(words, ' ')| ==>
      JoinWith(words, ' ')[k] == ' ' || exists w :: w in words && JoinWith(words, ' ')[k] in w
    decreases |words|
  {
    var s := JoinWith(words, ' ');
    assert words[0] in words;
    if |words| > 1 {
      JoinedWords(words[1..]);
      var rest := JoinWith(words[1..], ' ');
      assert s == words[0] + ([' '] + rest);
      forall k | 0 <= k < |s|
        ensures s[k] == ' ' || exists w :: w in words && s[k] in w
        ensures !IsLineBreak(s[k])
      {
        if k > |words[0]| {
          assert s[k] == rest[k - |words[0]| - 1];
        } else if k < |words[0]| {
          assert s[k] in words[0];
        }
      }
    }
  }

  // ----- splitlines

  predicate OneLine(s: string) { forall k :: 0 <= k < |s| ==> !IsLineBreak(s[k]) }

  /** The lines of a text; a carriage return and a line feed together end one line. */
  function SplitLines(text: string): (lines: seq<string>)
    decreases |text|
  {
    if text == "" then []
    else if IsLineBreak(text[0]) then
      [""] + SplitLines(if |text| > 1 && text[0] == '\r' && text[1] == '\n' then text[2..] else text[1..])
    else
      var rest := SplitLines(text[1..]);
      if rest == [] then [[text[0]]] else [[text[0]] + rest[0]] + rest[1..]
  }

  lemma {:induction false} JoinIsOneLine(parts: seq<string>, sep: char)
    requires parts != [] && !IsLineBreak(sep) && forall p :: p in parts ==> OneLine(p)
    ensures OneLine(JoinWith(parts, sep))
    decreases |parts|
  {
    assert parts[0] in parts;
    if |parts| > 1 {
      JoinIsOneLine(parts[1..], sep);
    }
  }

  lemma {:induction false} SplitLinesAreLines(text: string, line: string)
    requires line in SplitLines(text)
    ensures OneLine(line)
    decreases |text|
  {
    if IsLineBreak(text[0]) {
      var after := if |text| > 1 && text[0] == '\r' && text[1] == '\n' then text[2..] else text[1..];
      if line in SplitLines(after) {
        SplitLinesAreLines(after, line);
      }
    } else {
      var rest := SplitLines(text[1..]);
      if line in rest {
        SplitLinesAreLines(text[1..], line);
      } else if rest != [] {
        SplitLinesAreLines(text[1..], rest[0]);
      }
    }
  }

  lemma {:induction false} FirstLine(line: string, rest: string)
    requires OneLine(line)
    ensures SplitLines(line + ("\n" + rest)) == [line] + SplitLines(rest)
    decreases |line|
  {
    var text := line + ("\n" + rest);
    if line == "" {
      assert text[1..] == rest;
    } else {
      FirstLine(line[1..], rest);
      assert text[1..] == line[1..] + ("\n" + rest);
      if |line| == 1 {
        assert text[1] == '\n';
        assert line == [line[0]];
      } else {
        assert text[1] == line[1];
        assert [line[0]] + line[1..] == line;
      }
    }
  }
}
