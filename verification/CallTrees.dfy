/** Calls as trees of tokens, their printed form, and both scanners on printed calls. */
module CallTrees {
  datatype Tokens = Nothing | More(token: Token, rest: Tokens)

  datatype Token =
    | Plain(c: char)
    | Group(open: char, body: Tokens, close: char)
    | Str(quote: char, chars: seq<StrChar>)
    | Template(parts: Parts)

  datatype StrChar = Char(c: char) | Escape(c: char)

  datatype Parts = Stop | Text(first: StrChar, rest: Parts) | Expression(body: Tokens, rest: Parts)

  function PrintChar(c: StrChar): string {
    match c
    case Char(c) => [c]
    case Escape(c) => ['\\', c]
  }

  function PrintChars(s: seq<StrChar>): string {
    if s == [] then "" else PrintChar(s[0]) + PrintChars(s[1..])
  }

  function PrintToken(t: Token): string {
    match t
    case Plain(c) => [c]
    case Group(open, body, close) => [open] + (Print(body) + [close])
    case Str(quote, chars) => [quote] + (PrintChars(chars) + [quote])
    case Template(parts) => "`" + (PrintParts(parts) + "`")
  }

  function Print(ts: Tokens): string {
    match ts
    case Nothing => ""
    case More(t, rest) => PrintToken(t) + Print(rest)
  }

  function PrintParts(p: Parts): string {
    match p
    case Stop => ""
    case Text(c, rest) => PrintChar(c) + PrintParts(rest)
    case Expression(body, rest) => "${" + (Print(body) + ("}" + PrintParts(rest)))
  }

  // ----- which trees are calls

  // The alphabet of calls, written out on its own: nothing here refers to the scanner.

  predicate IsMark(c: char) { c == '"' || c == '\'' || c == '`' }
  predicate Opens(c: char) { c == '(' || c == '[' || c == '{' }
  predicate Closes(c: char) { c == ')' || c == ']' || c == '}' }

  predicate IsPair(open: char, close: char) {
    (open == '(' && close == ')') || (open == '[' && close == ']') || (open == '{' && close == '}')
  }

  predicate IsPlain(c: char) {
    !IsMark(c) && !Opens(c) && !Closes(c) && c != '\\'
  }

  predicate IsStrChar(c: StrChar, quote: char) {
    c.Char? ==> c.c != quote && c.c != '\\'
  }

  predicate IsToken(t: Token) {
    match t
    case Plain(c) => IsPlain(c)
    case Group(open, body, close) => IsPair(open, close) && IsTokens(body)
    case Str(quote, chars) =>
      (quote == '"' || quote == '\'') && forall c :: c in chars ==> IsStrChar(c, quote)
    case Template(parts) => IsTemplate(parts)
  }

  predicate IsTokens(ts: Tokens) {
    ts.More? ==> IsToken(ts.token) && IsTokens(ts.rest)
  }

  /** A dollar sign before an opening brace would open an expression. */
  predicate IsTemplate(p: Parts) {
    match p
    case Stop => true
    case Text(c, rest) =>
      && IsStrChar(c, '`') && IsTemplate(rest)
      && (c == Char('$') ==> !(rest.Text? && rest.first == Char('{')))
    case Expression(body, rest) => IsTokens(body) && IsTemplate(rest)
  }

  // ----- how the splitter sees template literals

  // The splitter takes a backtick for a quote wherever it meets one, and does not look for
  // expressions. So the text of a template literal inside an expression is outside every quote for
  // it, and the expressions of that inner literal are in braces like any group.

  /** Where the splitter is outside quotes. */
  predicate Readable(ts: Tokens) {
    ts.More? ==> ReadableToken(ts.token) && Readable(ts.rest)
  }

  predicate ReadableToken(t: Token) {
    match t
    case Plain(_) => true
    case Group(_, body, _) => Readable(body)
    case Str(_, _) => true
    case Template(parts) => QuietParts(parts)
  }

  predicate QuietParts(p: Parts) {
    match p
    case Stop => true
    case Text(_, rest) => QuietParts(rest)
    case Expression(body, rest) => Quiet(body) && QuietParts(rest)
  }

  /** Where the splitter believes to be between backticks. */
  predicate Quiet(ts: Tokens) {
    ts.More? ==> QuietToken(ts.token) && Quiet(ts.rest)
  }

  predicate QuietToken(t: Token) {
    match t
    case Plain(_) => true
    case Group(_, body, _) => Quiet(body)
    case Str(_, chars) => Char('`') !in chars
    case Template(parts) => Exposed(parts, 0)
  }

  /** The depth behind a character that the splitter sees outside quotes. */
  function DepthAfter(c: char, depth: int): int {
    if Opens(c) then depth + 1 else if Closes(c) then depth - 1 else depth
  }

  /** The exposed text holds no quote, escaped or not, and from `depth` open brackets on its brackets balance. */
  predicate Exposed(p: Parts, depth: nat) {
    match p
    case Stop => depth == 0
    case Text(c, rest) => !IsMark(c.c) && DepthAfter(c.c, depth) >= 0 && Exposed(rest, DepthAfter(c.c, depth))
    case Expression(body, rest) => Readable(body) && Exposed(rest, depth)
  }

  /** Some template literal inside an expression of a template literal has a comma in its text that
      the splitter sees outside brackets. */
  predicate ExposesComma(ts: Tokens) {
    ts.More? && (TokenExposes(ts.token) || ExposesComma(ts.rest))
  }

  predicate TokenExposes(t: Token) {
    t.Template? && PartsExpose(t.parts)
  }

  predicate PartsExpose(p: Parts) {
    match p
    case Stop => false
    case Text(_, rest) => PartsExpose(rest)
    case Expression(body, rest) => BodyExposes(body) || PartsExpose(rest)
  }

  predicate BodyExposes(ts: Tokens) {
    ts.More? && (InnerExposes(ts.token) || BodyExposes(ts.rest))
  }

  predicate InnerExposes(t: Token) {
    match t
    case Plain(_) | Str(_, _) => false
    case Group(_, body, _) => BodyExposes(body)
    case Template(parts) => TextHasComma(parts, 0)
  }

  /** A comma outside the brackets of the text, `depth` of which are open. */
  predicate TextHasComma(p: Parts, depth: int) {
    match p
    case Stop => false
    case Text(c, rest) => (c.c == ',' && depth == 0) || TextHasComma(rest, DepthAfter(c.c, depth))
    case Expression(_, rest) => TextHasComma(rest, depth)
  }

  /** No comma outside brackets and strings: the tokens of one argument. */
  predicate IsArgument(ts: Tokens) {
    ts.More? ==> ts.token != Plain(',') && IsArgument(ts.rest)
  }

  // ----- text the scanners skip inside a string

  /** From the first character on, a string scanner with this quote comes to the end of `s` and stays inside. */
  predicate StaysQuoted(s: string, quote: char) {
    if s == "" then true
    else if s[0] == '\\' then |s| >= 2 && StaysQuoted(s[2..], quote)
    else s[0] != quote && StaysQuoted(s[1..], quote)
  }

  lemma {:induction false} StaysQuotedBoth(a: string, b: string, quote: char)
    requires StaysQuoted(a, quote) && StaysQuoted(b, quote)
    ensures StaysQuoted(a + b, quote)
    decreases |a|
  {
    if a == "" {
      assert a + b == b;
    } else {
      var n := if a[0] == '\\' then 2 else 1;
      StaysQuotedBoth(a[n..], b, quote);
      assert (a + b)[n..] == a[n..] + b;
    }
  }

  lemma {:induction false} CharsStayQuoted(s: seq<StrChar>, quote: char)
    requires quote != '\\' && forall c :: c in s ==> IsStrChar(c, quote)
    ensures StaysQuoted(PrintChars(s), quote)
    decreases |s|
  {
    if s != [] {
      CharStaysQuoted(s[0], quote);
      CharsStayQuoted(s[1..], quote);
      StaysQuotedBoth(PrintChar(s[0]), PrintChars(s[1..]), quote);
    }
  }

  lemma CharStaysQuoted(c: StrChar, quote: char)
    requires IsStrChar(c, quote)
    ensures StaysQuoted(PrintChar(c), quote)
  {
  }
}
