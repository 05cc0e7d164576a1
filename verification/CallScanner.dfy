/** The bracket matcher and the comma splitter of the translation call check. */
module CallScanner {
  import opened Wrappers
  import opened Text

  predicate IsQuote(c: char) { c == '"' || c == '\'' || c == '`' }
  predicate IsOpener(c: char) { c == '(' || c == '[' || c == '{' }
  predicate IsCloser(c: char) { c == ')' || c == ']' || c == '}' }

  function CloserOf(c: char): char
    requires IsOpener(c)
  {
    if c == '(' then ')' else if c == '[' then ']' else '}'
  }

  // ----- matching_end

  predicate OpensExpression(text: string, i: nat, quote: char)
    requires i < |text|
  {
    quote == '`' && text[i] == '$' && i + 1 < |text| && text[i + 1] == '{'
  }

  /** The position where the last bracket of `stack` closes, scanning from `i`, or the last position. */
  function MatchFrom(text: string, i: nat, stack: seq<char>, quote: Option<char>): (end: int)
    requires stack != []
    ensures end < |text|
    ensures end == |text| - 1 || i <= end
    decreases |text| - i
  {
    if i >= |text| then |text| - 1
    else if quote.Some? then
      if text[i] == '\\' then MatchFrom(text, i + 2, stack, quote)
      else if OpensExpression(text, i, quote.value) then
        MatchFrom(text, MatchFrom(text, i + 2, ['}'], None) + 1, stack, quote)
      else MatchFrom(text, i + 1, stack, if text[i] == quote.value then None else quote)
    else if IsQuote(text[i]) then MatchFrom(text, i + 1, stack, Some(text[i]))
    else if IsOpener(text[i]) then MatchFrom(text, i + 1, stack + [CloserOf(text[i])], None)
    else if text[i] == stack[|stack| - 1] then
      if |stack| == 1 then i else MatchFrom(text, i + 1, stack[..|stack| - 1], None)
    else MatchFrom(text, i + 1, stack, None)
  }

  method MatchingEnd(text: string, open: nat) returns (end: int)
    requires open < |text| && IsOpener(text[open])
    ensures end == MatchFrom(text, open + 1, [CloserOf(text[open])], None)
    decreases |text| - open
  {
    var stack, quote := [CloserOf(text[open])], None;
    var i := open + 1;
    while i < |text| && stack != []
      invariant open < i && stack != []
      invariant MatchFrom(text, i, stack, quote) == MatchFrom(text, open + 1, [CloserOf(text[open])], None)
      decreases |text| - i
    {
      var ch := text[i];
      if quote.Some? {
        if ch == '\\' {
          i := i + 2;
          continue;
        }
        if OpensExpression(text, i, quote.value) {
          var inner := MatchingEnd(text, i + 1);
          i := inner + 1;
          continue;
        }
        if ch == quote.value {
          quote := None;
        }
      } else if IsQuote(ch) {
        quote := Some(ch);
      } else if IsOpener(ch) {
        stack := stack + [CloserOf(ch)];
      } else if ch == stack[|stack| - 1] {
        if |stack| == 1 {
          return i;
        }
        stack := stack[..|stack| - 1];
      }
      i := i + 1;
    }
    return |text| - 1;
  }

  // ----- split_top_level

  function Tail(text: string, start: nat): seq<string>
    requires start <= |text|
  {
    if All(text[start..], IsSpace) then [] else [text[start..]]
  }

  /** The pieces from position `i` on; the piece being read began at `start`. */
  function Pieces(text: string, i: nat, start: nat, depth: int, quote: Option<char>): seq<string>
    requires start <= i && start <= |text|
    decreases |text| - i
  {
    if i >= |text| then Tail(text, start)
    else if quote.Some? then
      if text[i] == '\\' then Pieces(text, i + 2, start, depth, quote)
      else Pieces(text, i + 1, start, depth, if text[i] == quote.value then None else quote)
    else if IsQuote(text[i]) then Pieces(text, i + 1, start, depth, Some(text[i]))
    else if IsOpener(text[i]) then Pieces(text, i + 1, start, depth + 1, None)
    else if IsCloser(text[i]) then Pieces(text, i + 1, start, depth - 1, None)
    else if text[i] == ',' && depth == 0 then [text[start..i]] + Pieces(text, i + 1, i + 1, depth, None)
    else Pieces(text, i + 1, start, depth, None)
  }

  method SplitTopLevel(text: string) returns (parts: seq<string>)
    ensures parts == Pieces(text, 0, 0, 0, None)
  {
    parts := [];
    var depth, quote, start, i := 0, None, 0, 0;
    while i < |text|
      invariant start <= i && start <= |text|
      invariant parts + Pieces(text, i, start, depth, quote) == Pieces(text, 0, 0, 0, None)
      decreases |text| - i
    {
      var ch := text[i];
      if quote.Some? {
        if ch == '\\' {
          i := i + 2;
          continue;
        }
        if ch == quote.value {
          quote := None;
        }
      } else if IsQuote(ch) {
        quote := Some(ch);
      } else if IsOpener(ch) {
        depth := depth + 1;
      } else if IsCloser(ch) {
        depth := depth - 1;
      } else if ch == ',' && depth == 0 {
        assert parts + ([text[start..i]] + Pieces(text, i + 1, i + 1, depth, None))
            == parts + [text[start..i]] + Pieces(text, i + 1, i + 1, depth, None);
        parts := parts + [text[start..i]];
        start := i + 1;
      }
      i := i + 1;
    }
    if !All(text[start..], IsSpace) {
      parts := parts + [text[start..]];
    }
  }
}
