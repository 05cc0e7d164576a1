/** ICU messages as trees, their printed form, and the scanner on printed messages. */
module IcuMessages {
  import opened Wrappers
  import opened Text
  import opened IcuArguments

  /** A message may end inside quoted text, or with a single apostrophe if that text is empty. */
  datatype Message = End | Unclosed(text: string) | Then(part: Part, rest: Message)

  /** A name or a type keyword with the blanks around it. */
  datatype Padded = Padded(before: string, word: string, after: string)

  datatype Part =
    | Literal(text: string)
    | Apostrophe
    | Quoted(text: string)
    | Simple(name: Padded)
    | Typed(name: Padded, kind: Padded, style: string)
    | Branching(name: Padded, kind: Padded, cases: Cases)
    | Choice(name: Padded, kind: Padded, choices: Choices)

  /** Selector and body pairs; `Last` holds the blanks before the closing brace. */
  datatype Cases = Last(tail: string) | Case(selector: string, body: Message, rest: Cases)

  /** The sub-messages of a choice, each behind a number and a separator. */
  datatype Choices = Only(selector: string, body: Message) | Or(selector: string, body: Message, rest: Choices)

  function PrintPadded(p: Padded): string { p.before + p.word + p.after }

  /** Inside a quote an apostrophe is written twice. */
  function Doubled(text: string): string {
    if text == "" then "" else (if text[0] == '\'' then "''" else [text[0]]) + Doubled(text[1..])
  }

  function PrintPart(p: Part): string {
    match p
    case Literal(text) => text
    case Apostrophe => "''"
    case Quoted(text) => "'" + (Doubled(text) + "'")
    case Simple(name) => "{" + (PrintPadded(name) + "}")
    case Typed(name, kind, style) =>
      "{" + (PrintPadded(name) + ("," + (PrintPadded(kind) + (style + "}"))))
    case Branching(name, kind, cases) =>
      "{" + (PrintPadded(name) + ("," + (PrintPadded(kind) + ("," + (PrintCases(cases) + "}")))))
    case Choice(name, kind, choices) =>
      "{" + (PrintPadded(name) + ("," + (PrintPadded(kind) + (("," + PrintChoices(choices)) + "}"))))
  }

  function Print(m: Message): string {
    match m
    case End => ""
    case Unclosed(text) => "'" + Doubled(text)
    case Then(part, rest) => PrintPart(part) + Print(rest)
  }

  function PrintCases(c: Cases): string {
    match c
    case Last(tail) => tail
    case Case(selector, body, rest) => selector + ("{" + (Print(body) + ("}" + PrintCases(rest))))
  }

  function PrintChoices(c: Choices): string {
    match c
    case Only(selector, body) => selector + Print(body)
    case Or(selector, body, rest) => selector + (Print(body) + ("|" + PrintChoices(rest)))
  }

  /** What stands between the keyword and the closing brace. */
  function ChoiceStyle(c: Choices): string { "," + PrintChoices(c) }

  /** The argument names of a message: of every argument, and of the bodies of its branches. */
  function Names(m: Message): set<string> {
    match m
    case End | Unclosed(_) => {}
    case Then(part, rest) => PartNames(part) + Names(rest)
  }

  function PartNames(p: Part): set<string> {
    match p
    case Literal(_) | Apostrophe | Quoted(_) => {}
    case Simple(name) => {name.word}
    case Typed(name, _, _) => {name.word}
    case Branching(name, _, cases) => {name.word} + CaseNames(cases)
    case Choice(name, _, choices) => {name.word} + ChoiceNames(choices)
  }

  function CaseNames(c: Cases): set<string> {
    match c
    case Last(_) => {}
    case Case(_, body, rest) => Names(body) + CaseNames(rest)
  }

  function ChoiceNames(c: Choices): set<string> {
    match c
    case Only(_, body) => Names(body)
    case Or(_, body, rest) => Names(body) + ChoiceNames(rest)
  }

  // ----- which trees are messages

  predicate IsBrace(c: char) { c == '{' || c == '}' }
  predicate NoBrace(c: char) { !IsBrace(c) }

  /** What a text stands in: the whole message, or the body of a select, plural or choice argument. */
  datatype Parent = Top | Select | Plural | Choosing

  function ParentOf(kind: string): Parent { if kind == "select" then Select else Plural }

  /** Formatters differ in the characters that start quoted text beside braces; `<` is one where tags
      are read. These are left open. */
  type Openers = s: set<char> | forall c :: c in s ==> !IsBrace(c) && c != '\''
    witness {}

  const OTHER_OPENERS: Openers

  /** An apostrophe before this character starts quoted text. */
  predicate Opens(c: char, parent: Parent) {
    IsBrace(c) || (c == '#' && parent.Plural?) || (c == '|' && parent.Choosing?) || c in OTHER_OPENERS
  }

  /** No braces, and an apostrophe only before a character that does not make it special. */
  predicate IsLiteral(text: string, parent: Parent) {
    && All(text, NoBrace) && (parent.Choosing? ==> '|' !in text)
    && (forall k :: 0 <= k < |text| && text[k] == '\'' ==>
          k + 1 < |text| && text[k + 1] != '\'' && !Opens(text[k + 1], parent))
  }

  predicate IsQuotable(text: string, parent: Parent) {
    text != "" && Opens(text[0], parent)
  }

  predicate StaysSpecial(text: string) {
    text == "" || IsBrace(text[0]) || text[0] == '\''
  }

  /** Starts with a brace, and after an apostrophe comes a brace, another apostrophe or the end. */
  predicate IsQuotedText(text: string) {
    && text != "" && IsBrace(text[0])
    && forall k :: 0 <= k < |text| && text[k] == '\'' ==> StaysSpecial(text[k + 1..])
  }

  // The alphabet of messages, written out on its own: nothing here refers to the scanner.

  /** The blanks that the format and the scanner share. */
  predicate IsBlankChar(c: char) {
    c == ' ' || c == '\t' || c == '\n' || c == '\U{b}' || c == '\U{c}' || c == '\r'
    || c == '\U{85}' || c == '\U{2028}' || c == '\U{2029}'
  }

  predicate IsKeywordChar(c: char) { 'a' <= c <= 'z' || 'A' <= c <= 'Z' }
  predicate StartsName(c: char) { 'a' <= c <= 'z' || 'A' <= c <= 'Z' || c == '_' }
  predicate IsNameChar(c: char) { StartsName(c) || '0' <= c <= '9' || c in OTHER_WORD_CHARS }

  const KEYWORDS := {"plural", "select", "selectordinal"}

  predicate IsName(word: string) {
    word != "" && StartsName(word[0]) && All(word, IsNameChar)
  }

  /** Names beyond those the scanner knows: numbers, and words that start with any letter. */
  predicate IsIdentifier(word: string) { word != "" && All(word, IsNameChar) }

  predicate IsPadded(p: Padded) {
    All(p.before, IsBlankChar) && All(p.after, IsBlankChar)
  }

  predicate IsKind(p: Padded) {
    IsPadded(p) && p.word != "" && All(p.word, IsKeywordChar)
  }

  /** From depth `depth` the braces of `style` never close the argument and balance at its end. */
  predicate Balanced(style: string, depth: nat) {
    depth > 0 &&
    if style == "" then depth == 1
    else Balanced(style[1..],
                  if style[0] == '{' then depth + 1 else if style[0] == '}' then depth - 1 else depth)
  }

  /** The style of an argument as the format defines it: an apostrophe starts and ends quoted text,
      and the braces outside of it balance. */
  predicate IsStyle(style: string, depth: nat, quoted: bool) {
    if style == "" then depth == 0 && !quoted
    else if style[0] == '\'' then IsStyle(style[1..], depth, !quoted)
    else if quoted || !IsBrace(style[0]) then IsStyle(style[1..], depth, quoted)
    else if style[0] == '{' then IsStyle(style[1..], depth + 1, quoted)
    else depth > 0 && IsStyle(style[1..], depth - 1, quoted)
  }

  predicate SameLetters(a: string, b: string) {
    |a| == |b| && forall k :: 0 <= k < |a| ==> a[k] == b[k] || ('A' <= a[k] <= 'Z' && a[k] - 'A' + 'a' == b[k])
  }

  const NESTING := KEYWORDS + {"choice"}

  /** A keyword without sub-messages, in whatever case of letters. */
  predicate IsFlatKind(word: string) {
    word !in NESTING && forall k :: k in NESTING ==> !SameLetters(word, k)
  }

  /** The shape of a message; quoted texts, styles, choices and names are open. Behind the apostrophe
      that closes a quote (`closed`) no literal text starts with an apostrophe: that would be a doubled one. */
  predicate HasShape(m: Message, parent: Parent, closed: bool) {
    match m
    case End => true
    case Unclosed(text) => parent.Top? && (text != "" ==> IsQuotable(text, parent))
    case Then(part, rest) =>
      && PartHasShape(part, parent) && (closed ==> !IsApostropheLiteral(part))
      && HasShape(rest, parent, StaysClosed(part, closed))
  }

  predicate IsApostropheLiteral(p: Part) { p.Literal? && p.text != "" && p.text[0] == '\'' }

  predicate StaysClosed(p: Part, closed: bool) {
    p.Quoted? || (closed && (p.Apostrophe? || p == Literal("")))
  }

  predicate ArgumentHasShape(name: Padded, kind: Padded) {
    IsPadded(name) && IsIdentifier(name.word) && IsKind(kind)
  }

  predicate PartHasShape(p: Part, parent: Parent) {
    match p
    case Literal(text) => IsLiteral(text, parent)
    case Apostrophe => true
    case Quoted(text) => IsQuotable(text, parent)
    case Simple(name) => IsPadded(name) && IsIdentifier(name.word)
    case Typed(name, kind, style) =>
      && ArgumentHasShape(name, kind) && IsFlatKind(kind.word)
      && (style != "" ==> style[0] == ',') && IsStyle(style, 0, false)
    case Branching(name, kind, cases) =>
      && ArgumentHasShape(name, kind) && kind.word in KEYWORDS
      && CasesHaveShape(cases, ParentOf(kind.word))
    case Choice(name, kind, choices) =>
      && ArgumentHasShape(name, kind) && kind.word == "choice"
      && ChoicesHaveShape(choices) && Balanced(ChoiceStyle(choices), 1)
  }

  predicate CasesHaveShape(c: Cases, parent: Parent) {
    match c
    case Last(tail) => All(tail, NoBrace)
    case Case(selector, body, rest) =>
      All(selector, NoBrace) && HasShape(body, parent, false) && CasesHaveShape(rest, parent)
  }

  predicate ChoicesHaveShape(c: Choices) {
    && All(c.selector, NoBrace) && All(c.selector, NotApostrophe)
    && HasShape(c.body, Choosing, false) && (c.Or? ==> ChoicesHaveShape(c.rest))
  }

  /** The parts of a message that decide whether the scanner reads it rightly. */
  datatype Texts = Texts(names: set<string>, quotes: set<string>, styles: set<string>, choices: set<Choices>)

  const NO_TEXTS := Texts({}, {}, {}, {})

  function Both(a: Texts, b: Texts): Texts {
    Texts(a.names + b.names, a.quotes + b.quotes, a.styles + b.styles, a.choices + b.choices)
  }

  function TextsOf(m: Message): Texts {
    match m
    case End => NO_TEXTS
    case Unclosed(text) => if text == "" then NO_TEXTS else NO_TEXTS.(quotes := {text})
    case Then(part, rest) => Both(PartTexts(part), TextsOf(rest))
  }

  function PartTexts(p: Part): Texts {
    match p
    case Literal(_) | Apostrophe => NO_TEXTS
    case Quoted(text) => NO_TEXTS.(quotes := {text})
    case Simple(name) => NO_TEXTS.(names := {name.word})
    case Typed(name, _, style) => NO_TEXTS.(names := {name.word}, styles := {style})
    case Branching(name, _, cases) => Both(NO_TEXTS.(names := {name.word}), CaseTexts(cases))
    case Choice(name, _, choices) => NO_TEXTS.(names := {name.word}, choices := {choices})
  }

  function CaseTexts(c: Cases): Texts {
    match c
    case Last(_) => NO_TEXTS
    case Case(_, body, rest) => Both(TextsOf(body), CaseTexts(rest))
  }

  /** The scanner knows the names, ends the quotes and the styles where they end, and misses nothing
      in the choices, which it takes for styles. */
  predicate AreSafe(t: Texts) {
    && (forall n :: n in t.names ==> IsName(n))
    && (forall q :: q in t.quotes ==> IsQuotedText(q))
    && (forall s :: s in t.styles ==> Balanced(s, 1))
    && (forall c :: c in t.choices ==> ChoiceNames(c) == {})
  }

  predicate IsPart(p: Part, parent: Parent) { PartHasShape(p, parent) && AreSafe(PartTexts(p)) }
  predicate IsMessage(m: Message, parent: Parent, closed: bool) { HasShape(m, parent, closed) && AreSafe(TextsOf(m)) }
  predicate IsCases(c: Cases, parent: Parent) { CasesHaveShape(c, parent) && AreSafe(CaseTexts(c)) }

  // ----- the scanner knows the alphabet

  lemma BlanksAreKnown(p: Padded)
    requires IsPadded(p)
    ensures All(p.before, IsSpace) && All(p.after, IsSpace)
  {
    assert forall c :: IsBlankChar(c) ==> IsSpace(c);
  }

  lemma NameIsKnown(word: string)
    requires IsName(word)
    ensures IsNameStart(word[0]) && All(word, IsWord)
  {
    assert forall c :: IsNameChar(c) ==> IsWord(c);
  }

  lemma KindIsKnown(p: Padded)
    requires IsKind(p)
    ensures All(p.word, IsLetter) && All(p.before, IsSpace) && All(p.after, IsSpace)
  {
    BlanksAreKnown(p);
    assert forall c :: IsKeywordChar(c) ==> IsLetter(c);
  }

  lemma KeywordsAreKnown()
    ensures KEYWORDS == BRANCHING && "choice" !in BRANCHING
  {
  }

  // ----- the pieces of an argument head

  lemma PaddedAt(text: string, i: nat, p: Padded)
    requires At(text, i, PrintPadded(p))
    ensures At(text, i, p.before)
    ensures At(text, i + |p.before|, p.word)
    ensures At(text, i + |p.before| + |p.word|, p.after)
  {
    AtBoth(text, i, p.before + p.word, p.after);
    AtBoth(text, i, p.before, p.word);
  }

  lemma FirstAt(text: string, i: nat, piece: string)
    requires At(text, i, piece) && piece != ""
    ensures i < |text| && text[i] == piece[0]
  {
  }

  lemma AfterWord(text: string, i: nat, blanks: string)
    requires At(text, i, blanks) && All(blanks, IsSpace)
    requires i + |blanks| < |text| && !IsWord(text[i + |blanks|])
    ensures i < |text| && !IsWord(text[i])
  {
    if blanks != "" {
      FirstAt(text, i, blanks);
    }
  }

  lemma WordTaken(text: string, i: nat, word: string)
    requires At(text, i, word) && word != "" && IsNameStart(word[0]) && All(word, IsWord)
    requires i + |word| < |text| && !IsWord(text[i + |word|])
    ensures IsNameStart(text[i]) && !IsSpace(text[i])
    ensures Skip(text, i + 1, IsWord) == i + |word|
  {
    AtTail(text, i, word);
    assert All(word[1..], IsWord);
    SkipAt(text, i + 1, word[1..], IsWord);
  }

  /** Blanks, a name and blanks, as the head pattern takes them. */
  lemma NameTaken(text: string, i: nat, before: string, word: string, after: string)
    requires At(text, i, before) && At(text, i + |before|, word) && At(text, i + |before| + |word|, after)
    requires All(before, IsSpace) && All(after, IsSpace)
    requires word != "" && IsNameStart(word[0]) && All(word, IsWord)
    requires
      var end := i + |before| + |word| + |after|;
      end < |text| && !IsWord(text[end]) && !IsSpace(text[end])
    ensures
      var nameAt := i + |before|;
      && Skip(text, i, IsSpace) == nameAt < |text| && IsNameStart(text[nameAt])
      && Skip(text, nameAt + 1, IsWord) == nameAt + |word|
      && Skip(text, nameAt + |word|, IsSpace) == nameAt + |word| + |after|
  {
    var nameAt := i + |before|;
    AfterWord(text, nameAt + |word|, after);
    SkipAt(text, nameAt + |word|, after, IsSpace);
    WordTaken(text, nameAt, word);
    SkipAt(text, i, before, IsSpace);
  }

  /** Blanks, a type keyword and blanks. */
  lemma KindTaken(text: string, i: nat, before: string, word: string, after: string)
    requires At(text, i, before) && At(text, i + |before|, word) && At(text, i + |before| + |word|, after)
    requires All(before, IsSpace) && word != "" && All(word, IsLetter) && All(after, IsSpace)
    requires
      var end := i + |before| + |word| + |after|;
      end < |text| && !IsWord(text[end]) && !IsSpace(text[end])
    ensures
      var kindAt := i + |before|;
      && Skip(text, i, IsSpace) == kindAt
      && Skip(text, kindAt, IsLetter) == kindAt + |word| > kindAt
      && Skip(text, kindAt + |word|, IsSpace) == kindAt + |word| + |after|
  {
    var kindAt := i + |before|;
    AfterWord(text, kindAt + |word|, after);
    SkipAt(text, kindAt + |word|, after, IsSpace);
    SkipAt(text, kindAt, word, IsLetter);
    FirstAt(text, kindAt, word);
    SkipAt(text, i, before, IsSpace);
  }

  predicate EndsHead(c: char) { c == ',' || c == '}' }

  function PastPadded(i: nat, p: Padded): nat { i + |PrintPadded(p)| }

  lemma MatchName(text: string, i: nat, name: Padded)
    requires i < |text| && At(text, i + 1, PrintPadded(name)) && IsPadded(name) && IsName(name.word)
    requires PastPadded(i + 1, name) < |text| && EndsHead(text[PastPadded(i + 1, name)])
    ensures MatchHead(text, i) == MatchKind(text, PastPadded(i + 1, name), name.word)
  {
    BlanksAreKnown(name);
    NameIsKnown(name.word);
    hide MatchHead, MatchKind, Skip, IsName;
    var nameAt := i + 1 + |name.before|;
    PaddedAt(text, i + 1, name);
    NameTaken(text, i + 1, name.before, name.word, name.after);
    AtSlice(text, nameAt, name.word);
    MatchHeadParts(text, i, nameAt, nameAt + |name.word|, PastPadded(i + 1, name));
  }

  lemma MatchHeadParts(text: string, i: nat, nameAt: nat, nameEnd: nat, comma: nat)
    requires i < |text| && Skip(text, i + 1, IsSpace) == nameAt < |text| && IsNameStart(text[nameAt])
    requires Skip(text, nameAt + 1, IsWord) == nameEnd && Skip(text, nameEnd, IsSpace) == comma
    ensures MatchHead(text, i) == MatchKind(text, comma, text[nameAt..nameEnd])
  {
  }

  lemma MatchKindAt(text: string, comma: nat, name: string, kind: Padded)
    requires comma < |text| && text[comma] == ',' && At(text, comma + 1, PrintPadded(kind)) && IsKind(kind)
    requires PastPadded(comma + 1, kind) < |text| && EndsHead(text[PastPadded(comma + 1, kind)])
    ensures MatchKind(text, comma, name) == Head(name, Some(kind.word), PastPadded(comma + 1, kind))
  {
    KindIsKnown(kind);
    hide MatchKind;
    var kindAt := comma + 1 + |kind.before|;
    PaddedAt(text, comma + 1, kind);
    KindTaken(text, comma + 1, kind.before, kind.word, kind.after);
    AtSlice(text, kindAt, kind.word);
    MatchKindParts(text, comma, name, kindAt, kindAt + |kind.word|, PastPadded(comma + 1, kind));
  }

  lemma MatchKindParts(text: string, comma: nat, name: string, kindAt: nat, kindEnd: nat, end: nat)
    requires comma < |text| && text[comma] == ',' && Skip(text, comma + 1, IsSpace) == kindAt
    requires Skip(text, kindAt, IsLetter) == kindEnd > kindAt && Skip(text, kindEnd, IsSpace) == end
    ensures MatchKind(text, comma, name) == Head(name, Some(text[kindAt..kindEnd]), end)
  {
  }

  lemma SimpleAt(text: string, i: nat, name: string)
    requires At(text, i, "{" + (name + "}"))
    ensures text[i] == '{' && At(text, i + 1, name) && i + 1 + |name| < |text| && text[i + 1 + |name|] == '}'
  {
    AtBoth(text, i, "{", name + "}");
    AtBoth(text, i + 1, name, "}");
    FirstAt(text, i, "{");
    FirstAt(text, i + 1 + |name|, "}");
  }

  lemma HeadAt(text: string, i: nat, name: string, kind: string, rest: string)
    requires At(text, i, "{" + (name + ("," + (kind + rest)))) && rest != ""
    ensures
      var comma := i + 1 + |name|;
      var end := comma + 1 + |kind|;
      && text[i] == '{' && At(text, i + 1, name)
      && text[comma] == ',' && At(text, comma + 1, kind)
      && end < |text| && text[end] == rest[0] && At(text, end, rest)
  {
    var comma := i + 1 + |name|;
    AtBoth(text, i, "{", name + ("," + (kind + rest)));
    AtBoth(text, i + 1, name, "," + (kind + rest));
    AtBoth(text, comma, ",", kind + rest);
    AtBoth(text, comma + 1, kind, rest);
    FirstAt(text, i, "{");
    FirstAt(text, comma, ",");
    FirstAt(text, comma + 1 + |kind|, rest);
  }

  /** Where the head of a printed argument with a type ends. */
  function HeadEnd(i: nat, name: Padded, kind: Padded): nat {
    PastPadded(PastPadded(i + 1, name) + 1, kind)
  }

  lemma SimpleHead(text: string, i: nat, name: Padded)
    requires At(text, i, "{" + (PrintPadded(name) + "}")) && IsPadded(name) && IsName(name.word)
    ensures
      var end := PastPadded(i + 1, name);
      && text[i] == '{' && end < |text| && text[end] == '}'
      && MatchHead(text, i) == Head(name.word, None, end)
  {
    SimpleAt(text, i, PrintPadded(name));
    MatchName(text, i, name);
  }

  /** A name, a type and then `,` or `}`. */
  lemma TypedHead(text: string, i: nat, name: Padded, kind: Padded)
    requires i < |text| && At(text, i + 1, PrintPadded(name)) && IsPadded(name) && IsName(name.word)
    requires
      var comma := PastPadded(i + 1, name);
      && comma < |text| && text[comma] == ',' && At(text, comma + 1, PrintPadded(kind)) && IsKind(kind)
    requires HeadEnd(i, name, kind) < |text| && EndsHead(text[HeadEnd(i, name, kind)])
    ensures MatchHead(text, i) == Head(name.word, Some(kind.word), HeadEnd(i, name, kind))
  {
    hide MatchHead, MatchKind;
    var comma := PastPadded(i + 1, name);
    MatchName(text, i, name);
    MatchKindAt(text, comma, name.word, kind);
  }

  // ----- runs of the scanner over printed pieces

  /** From `i` the scanner comes to `end`, and the names it adds on the way are `names`. */
  ghost predicate ScannedOver(text: string, i: nat, stop: bool, end: nat, names: set<string>) {
    var rest := Parse(text, end, stop);
    Parse(text, i, stop) == Found(names + rest.names, rest.end)
  }

  lemma ScannedOverNothing(text: string, i: nat, stop: bool, end: nat)
    requires Parse(text, i, stop) == Parse(text, end, stop)
    ensures ScannedOver(text, i, stop, end, {})
  {
  }

  lemma ScannedOverBoth(text: string, i: nat, stop: bool, mid: nat, x: set<string>, end: nat, y: set<string>)
    requires ScannedOver(text, i, stop, mid, x) && ScannedOver(text, mid, stop, end, y)
    ensures ScannedOver(text, i, stop, end, x + y)
  {
  }

  lemma {:induction false} CloseOverStyle(text: string, i: nat, style: string, depth: nat)
    requires At(text, i, style + "}") && Balanced(style, depth)
    ensures Close(text, i, depth) == i + |style| + 1
    decreases |style|
  {
    AtTail(text, i, style + "}");
    if style == "" {
      assert Close(text, i + 1, 0) == i + 1;
    } else {
      assert (style + "}")[1..] == style[1..] + "}";
      var next := if style[0] == '{' then depth + 1 else if style[0] == '}' then depth - 1 else depth;
      CloseOverStyle(text, i + 1, style[1..], next);
    }
  }

  lemma {:induction false} ParseOverLiteral(text: string, i: nat, stop: bool, literal: string, parent: Parent)
    requires At(text, i, literal) && IsLiteral(literal, parent)
    ensures Parse(text, i, stop) == Parse(text, i + |literal|, stop)
    decreases |literal|
  {
    if literal != "" {
      AtTail(text, i, literal);
      if literal[0] == '\'' {
        assert text[i + 1] == literal[1];
      }
      var rest := literal[1..];
      assert forall k :: 0 <= k < |rest| ==> rest[k] == literal[k + 1];
      ParseOverLiteral(text, i + 1, stop, rest, parent);
    }
  }

  lemma ParseOverQuote(text: string, i: nat, stop: bool, quoted: string)
    requires At(text, i, "'" + (quoted + "'")) && All(quoted, NotApostrophe)
    requires quoted == "" || IsBrace(quoted[0])
    ensures ScannedOver(text, i, stop, i + |quoted| + 2, {})
  {
    AtBoth(text, i, "'", quoted + "'");
    AtBoth(text, i + 1, quoted, "'");
    FirstAt(text, i, "'");
    FirstAt(text, i + 1, quoted + "'");
    FirstAt(text, i + 1 + |quoted|, "'");
    SkipAt(text, i + 1, quoted, NotApostrophe);
    assert Parse(text, i, stop) == Parse(text, i + |quoted| + 2, stop);
    ScannedOverNothing(text, i, stop, i + |quoted| + 2);
  }

  lemma {:induction false} DoubledOfPlain(text: string)
    requires All(text, NotApostrophe)
    ensures Doubled(text) == text
    decreases |text|
  {
    if text != "" {
      assert All(text[1..], NotApostrophe);
      DoubledOfPlain(text[1..]);
      assert [text[0]] + text[1..] == text;
    }
  }

  lemma {:induction false} DoubledAtApostrophe(a: string, b: string)
    requires All(a, NotApostrophe)
    ensures Doubled(a + ("'" + b)) == a + ("''" + Doubled(b))
    decreases |a|
  {
    var text := a + ("'" + b);
    if a == "" {
      assert text[1..] == b;
    } else {
      assert All(a[1..], NotApostrophe);
      DoubledAtApostrophe(a[1..], b);
      assert text[1..] == a[1..] + ("'" + b);
      assert a + ("''" + Doubled(b)) == [a[0]] + (a[1..] + ("''" + Doubled(b)));
    }
  }

  lemma SkipStops(text: string, i: nat)
    requires i <= |text|
    ensures
      var k := Skip(text, i, NotApostrophe);
      All(text[i..k], NotApostrophe) && (k < |text| ==> text[k] == '\'')
    decreases |text| - i
  {
    if i < |text| && NotApostrophe(text[i]) {
      SkipStops(text, i + 1);
      var k := Skip(text, i + 1, NotApostrophe);
      assert text[i..k] == [text[i]] + text[i + 1..k];
    }
  }

  lemma QuoteAt(text: string, i: nat, a: string, b: string)
    requires At(text, i, "'" + (a + ("''" + b) + "'"))
    ensures At(text, i, "'" + (a + "'")) && At(text, i + |a| + 2, "'" + (b + "'"))
  {
    assert "'" + (a + ("''" + b) + "'") == "'" + (a + "'") + ("'" + (b + "'"));
    AtBoth(text, i, "'" + (a + "'"), "'" + (b + "'"));
  }

  lemma SpecialRest(quoted: string, k: nat)
    requires k < |quoted| && quoted[k] == '\''
    requires forall m :: 0 <= m < |quoted| && quoted[m] == '\'' ==> StaysSpecial(quoted[m + 1..])
    ensures
      var rest := quoted[k + 1..];
      StaysSpecial(rest) && forall m :: 0 <= m < |rest| && rest[m] == '\'' ==> StaysSpecial(rest[m + 1..])
  {
    hide StaysSpecial;
    var rest := quoted[k + 1..];
    forall m | 0 <= m < |rest| && rest[m] == '\''
      ensures StaysSpecial(rest[m + 1..])
    {
      assert rest[m] == quoted[k + 1 + m] && rest[m + 1..] == quoted[k + 1 + m + 1..];
    }
  }

  /** The text up to the first apostrophe at `k`, or all of it. */
  lemma FirstStretch(quoted: string) returns (k: nat)
    ensures k <= |quoted| && All(quoted[..k], NotApostrophe)
    ensures k < |quoted| ==> quoted[k] == '\'' && quoted == quoted[..k] + ("'" + quoted[k + 1..])
    ensures k < |quoted| ==> Doubled(quoted) == quoted[..k] + ("''" + Doubled(quoted[k + 1..]))
    ensures k == |quoted| ==> quoted[..k] == quoted == Doubled(quoted)
  {
    hide Doubled;
    SkipStops(quoted, 0);
    k := Skip(quoted, 0, NotApostrophe);
    assert quoted[0..k] == quoted[..k];
    if k == |quoted| {
      assert quoted[..k] == quoted;
      DoubledOfPlain(quoted);
    } else {
      assert quoted == quoted[..k] + ("'" + quoted[k + 1..]);
      DoubledAtApostrophe(quoted[..k], quoted[k + 1..]);
    }
  }

  /** The scanner reads a doubled apostrophe as the end of one quote and the start of the next. */
  lemma {:induction false} ParseOverQuotedText(text: string, i: nat, stop: bool, quoted: string)
    requires StaysSpecial(quoted)
    requires forall k :: 0 <= k < |quoted| && quoted[k] == '\'' ==> StaysSpecial(quoted[k + 1..])
    requires At(text, i, "'" + (Doubled(quoted) + "'"))
    ensures ScannedOver(text, i, stop, i + |Doubled(quoted)| + 2, {})
    decreases |quoted|
  {
    hide Parse, StaysSpecial, Doubled, At, Skip, All, ScannedOver;
    var k := FirstStretch(quoted);
    FirstIsSpecial(quoted, k);
    if k == |quoted| {
      ParseOverQuote(text, i, stop, quoted);
    } else {
      var a, rest := quoted[..k], quoted[k + 1..];
      QuoteAt(text, i, a, Doubled(rest));
      ParseOverQuote(text, i, stop, a);
      SpecialRest(quoted, k);
      ParseOverQuotedText(text, i + |a| + 2, stop, rest);
      var none: set<string> := {};
      ScannedOverBoth(text, i, stop, i + |a| + 2, none, i + |Doubled(quoted)| + 2, none);
      assert none + none == none;
    }
  }

  lemma FirstPair(text: string, i: nat, a: string, b: string)
    requires At(text, i, "'" + (a + ("''" + b)))
    ensures At(text, i, "'" + (a + "'")) && At(text, i + |a| + 2, "'" + b)
  {
    assert "'" + (a + ("''" + b)) == "'" + (a + "'") + ("'" + b);
    AtBoth(text, i, "'" + (a + "'"), "'" + b);
  }

  /** A quote that the message does not close is skipped to the end. */
  lemma {:induction false} ParseOverUnclosedText(text: string, i: nat, stop: bool, quoted: string)
    requires StaysSpecial(quoted)
    requires forall m :: 0 <= m < |quoted| && quoted[m] == '\'' ==> StaysSpecial(quoted[m + 1..])
    requires At(text, i, "'" + Doubled(quoted)) && |text| == i + 1 + |Doubled(quoted)|
    ensures Parse(text, i, stop) == Found({}, |text|)
    decreases |quoted|
  {
    hide Parse, StaysSpecial, Doubled, At, Skip, All;
    var k := FirstStretch(quoted);
    FirstIsSpecial(quoted, k);
    if k == |quoted| {
      LastQuote(text, i, stop, quoted);
    } else {
      var a, rest := quoted[..k], quoted[k + 1..];
      FirstPair(text, i, a, Doubled(rest));
      ParseOverQuote(text, i, stop, a);
      SpecialRest(quoted, k);
      ParseOverUnclosedText(text, i + |a| + 2, stop, rest);
    }
  }

  lemma LastQuote(text: string, i: nat, stop: bool, quoted: string)
    requires At(text, i, "'" + quoted) && |text| == i + 1 + |quoted|
    requires All(quoted, NotApostrophe) && (quoted == "" || IsBrace(quoted[0]))
    ensures Parse(text, i, stop) == Found({}, |text|)
  {
    FirstAt(text, i, "'" + quoted);
    if quoted != "" {
      AtBoth(text, i, "'", quoted);
      FirstAt(text, i + 1, quoted);
      SkipAt(text, i + 1, quoted, NotApostrophe);
    }
  }

  lemma ParseOverUnclosed(text: string, i: nat, stop: bool, quoted: string)
    requires quoted == "" || IsQuotedText(quoted)
    requires At(text, i, "'" + Doubled(quoted)) && |text| == i + 1 + |Doubled(quoted)|
    ensures ScannedOver(text, i, stop, |text|, {})
  {
    ParseOverUnclosedText(text, i, stop, quoted);
    assert Parse(text, |text|, stop) == Found({}, |text|);
  }

  lemma FirstIsSpecial(quoted: string, k: nat)
    requires StaysSpecial(quoted) && k <= |quoted| && All(quoted[..k], NotApostrophe)
    ensures k == 0 || IsBrace(quoted[0])
  {
  }

  lemma {:induction false} BranchesOverSelector(text: string, i: nat, selector: string)
    requires At(text, i, selector) && All(selector, NoBrace)
    ensures Branches(text, i) == Branches(text, i + |selector|)
    decreases |selector|
  {
    if selector != "" {
      AtTail(text, i, selector);
      assert All(selector[1..], NoBrace);
      BranchesOverSelector(text, i + 1, selector[1..]);
    }
  }

  lemma ParseOverArgument(text: string, i: nat, stop: bool, h: Head, names: set<string>, end: nat)
    requires i < |text| && text[i] == '{' && MatchHead(text, i) == h && h.Head?
    requires Argument(text, h) == Found(names, end)
    ensures ScannedOver(text, i, stop, end, {h.name} + names)
  {
  }

  lemma SimpleArgument(text: string, name: string, end: nat)
    requires end < |text| && text[end] == '}'
    ensures Argument(text, Head(name, None, end)) == Found({}, end + 1)
  {
    assert Close(text, end + 1, 0) == end + 1;
  }

  lemma TypedArgument(text: string, name: string, kind: string, end: nat, style: string)
    requires kind !in BRANCHING && At(text, end, style + "}") && Balanced(style, 1)
    ensures Argument(text, Head(name, Some(kind), end)) == Found({}, end + |style| + 1)
  {
    CloseOverStyle(text, end, style, 1);
  }

  lemma BranchingArgument(text: string, name: string, kind: string, end: nat, names: set<string>, close: nat)
    requires kind in BRANCHING && AfterComma(text, end) == end + 1
    requires Branches(text, end + 1) == Found(names, close)
    ensures Argument(text, Head(name, Some(kind), end)) == Found(names, close + 1)
  {
  }

  lemma ParseOverSimple(text: string, i: nat, stop: bool, name: Padded)
    requires IsPadded(name) && IsName(name.word) && At(text, i, "{" + (PrintPadded(name) + "}"))
    ensures ScannedOver(text, i, stop, PastPadded(i + 1, name) + 1, {name.word})
  {
    SimpleHead(text, i, name);
    var end := PastPadded(i + 1, name);
    SimpleArgument(text, name.word, end);
    ParseOverArgument(text, i, stop, Head(name.word, None, end), {}, end + 1);
  }

  lemma ParseOverTyped(text: string, i: nat, stop: bool, name: Padded, kind: Padded, style: string)
    requires IsPadded(name) && IsName(name.word) && IsKind(kind) && kind.word !in BRANCHING
    requires (style != "" ==> style[0] == ',') && Balanced(style, 1)
    requires At(text, i, "{" + (PrintPadded(name) + ("," + (PrintPadded(kind) + (style + "}")))))
    ensures ScannedOver(text, i, stop, HeadEnd(i, name, kind) + |style| + 1, {name.word})
  {
    hide Parse, Branches, MatchHead, Argument, At, Balanced, IsName, IsPadded, IsKind, ScannedOver;
    assert (style + "}")[0] == if style == "" then '}' else ',';
    HeadAt(text, i, PrintPadded(name), PrintPadded(kind), style + "}");
    TypedHead(text, i, name, kind);
    var end := HeadEnd(i, name, kind);
    TypedArgument(text, name.word, kind.word, end, style);
    var none: set<string> := {};
    ParseOverArgument(text, i, stop, Head(name.word, Some(kind.word), end), none, end + |style| + 1);
    assert {name.word} + none == {name.word};
  }

  /** An argument with branches that stand before `close`. */
  lemma ParseOverBranching(text: string, i: nat, stop: bool, name: Padded, kind: Padded,
                           names: set<string>, close: nat)
    requires i < |text| && text[i] == '{' && kind.word in BRANCHING
    requires
      var end := HeadEnd(i, name, kind);
      && MatchHead(text, i) == Head(name.word, Some(kind.word), end) && AfterComma(text, end) == end + 1
      && Branches(text, end + 1) == Found(names, close)
    ensures ScannedOver(text, i, stop, close + 1, {name.word} + names)
  {
    hide Parse, Branches, MatchHead, Argument;
    var end := HeadEnd(i, name, kind);
    BranchingArgument(text, name.word, kind.word, end, names, close);
    ParseOverArgument(text, i, stop, Head(name.word, Some(kind.word), end), names, close + 1);
  }

  lemma BranchingAt(text: string, i: nat, name: Padded, kind: Padded, cases: string)
    requires At(text, i, "{" + (PrintPadded(name) + ("," + (PrintPadded(kind) + ("," + (cases + "}"))))))
    requires IsPadded(name) && IsName(name.word) && IsKind(kind)
    ensures
      var end := HeadEnd(i, name, kind);
      && text[i] == '{' && MatchHead(text, i) == Head(name.word, Some(kind.word), end)
      && AfterComma(text, end) == end + 1 && At(text, end + 1, cases + "}")
  {
    HeadAt(text, i, PrintPadded(name), PrintPadded(kind), "," + (cases + "}"));
    TypedHead(text, i, name, kind);
    AtBoth(text, HeadEnd(i, name, kind), ",", cases + "}");
  }

  lemma {:induction false} ParseOverPart(text: string, i: nat, stop: bool, p: Part, parent: Parent)
    requires IsPart(p, parent) && At(text, i, PrintPart(p))
    ensures ScannedOver(text, i, stop, i + |PrintPart(p)|, PartNames(p))
    decreases p, 0
  {
    hide Parse, Branches, MatchHead, Argument, Skip, At, IsStyle, Balanced, IsFlatKind, IsName, IsKind, IsPadded;
    hide IsQuotedText, IsLiteral, Doubled, ScannedOver;
    match p
    case Literal(literal) =>
      ParseOverLiteral(text, i, stop, literal, parent);
      ScannedOverNothing(text, i, stop, i + |literal|);
    case Apostrophe =>
      ParseOverApostrophe(text, i, stop);
    case Quoted(quoted) => ParseOverQuoted(text, i, stop, quoted);
    case Simple(name) => ParseOverSimple(text, i, stop, name);
    case Typed(name, kind, style) =>
      FlatIsNotBranching(kind.word);
      ParseOverTyped(text, i, stop, name, kind, style);
    case Branching(name, kind, cases) =>
      KeywordsAreKnown();
      var close := HeadEnd(i, name, kind) + 1 + |PrintCases(cases)|;
      BranchingAt(text, i, name, kind, PrintCases(cases));
      BranchesOverCases(text, HeadEnd(i, name, kind) + 1, cases, ParentOf(kind.word));
      ParseOverBranching(text, i, stop, name, kind, CaseNames(cases), close);
    case Choice(name, kind, choices) =>
      KeywordsAreKnown();
      ParseOverTyped(text, i, stop, name, kind, ChoiceStyle(choices));
      assert PartNames(p) == {name.word};
  }

  lemma ParseOverApostrophe(text: string, i: nat, stop: bool)
    requires At(text, i, "''")
    ensures ScannedOver(text, i, stop, i + 2, {})
  {
    assert "'" + ("" + "'") == "''";
    ParseOverQuote(text, i, stop, "");
  }

  lemma FlatIsNotBranching(word: string)
    requires IsFlatKind(word)
    ensures word !in BRANCHING
  {
    KeywordsAreKnown();
  }

  lemma ParseOverQuoted(text: string, i: nat, stop: bool, quoted: string)
    requires IsQuotedText(quoted) && At(text, i, "'" + (Doubled(quoted) + "'"))
    ensures ScannedOver(text, i, stop, i + |Doubled(quoted)| + 2, {})
  {
    ParseOverQuotedText(text, i, stop, quoted);
  }

  lemma {:induction false} ParseOverMessage(text: string, i: nat, stop: bool, m: Message, parent: Parent, closed: bool)
    requires IsMessage(m, parent, closed) && At(text, i, Print(m))
    requires parent.Top? ==> |text| == i + |Print(m)|
    ensures ScannedOver(text, i, stop, i + |Print(m)|, Names(m))
    decreases m, 1
  {
    hide Parse, At, PrintPart, PartNames, PartHasShape, PartTexts, IsName, IsQuotedText, Balanced, ChoiceNames;
    hide Doubled, IsQuotable, StaysClosed, IsApostropheLiteral, ScannedOver;
    match m
    case End => ScannedOverNothing(text, i, stop, i);
    case Unclosed(quoted) => ParseOverUnclosed(text, i, stop, quoted);
    case Then(part, rest) =>
      var first, after := PrintPart(part), Print(rest);
      AtBoth(text, i, first, after);
      ParseOverPart(text, i, stop, part, parent);
      ParseOverMessage(text, i + |first|, stop, rest, parent, StaysClosed(part, closed));
      ScannedOverBoth(text, i, stop, i + |first|, PartNames(part), i + |first| + |after|, Names(rest));
  }

  lemma {:induction false} BranchesOverCases(text: string, i: nat, c: Cases, parent: Parent)
    requires IsCases(c, parent) && !parent.Top? && At(text, i, PrintCases(c) + "}")
    ensures Branches(text, i) == Found(CaseNames(c), i + |PrintCases(c)|)
    decreases c, 1
  {
    hide Parse, Branches, At, IsName, IsQuotedText, Balanced, ChoiceNames;
    CasesAt(text, i, PrintCases(c));
    match c
    case Last(tail) => BranchesOverTail(text, i, tail);
    case Case(selector, body, rest) =>
      var open := i + |selector|;
      var close := open + 1 + |Print(body)|;
      CaseAt(text, i, selector, Print(body), PrintCases(rest));
      ParseOverMessage(text, open + 1, true, body, parent, false);
      AtAppended(text, close + 1, PrintCases(rest), "}");
      BranchesOverCases(text, close + 1, rest, parent);
      BranchesOverCase(text, i, selector, Print(body), Names(body), PrintCases(rest), CaseNames(rest));
  }

  lemma BranchesOverTail(text: string, i: nat, tail: string)
    requires At(text, i, tail) && All(tail, NoBrace) && i + |tail| < |text| && text[i + |tail|] == '}'
    ensures Branches(text, i) == Found({}, i + |tail|)
  {
    BranchesOverSelector(text, i, tail);
  }

  lemma BranchesOverCase(text: string, i: nat, selector: string, body: string, names: set<string>,
                         rest: string, more: set<string>)
    requires At(text, i, selector + ("{" + (body + ("}" + rest)))) && All(selector, NoBrace)
    requires
      var open := i + |selector|;
      var close := open + 1 + |body|;
      ScannedOver(text, open + 1, true, close, names)
      && Branches(text, close + 1) == Found(more, close + 1 + |rest|)
    ensures Branches(text, i) == Found(names + more, i + |selector| + 1 + |body| + 1 + |rest|)
  {
    hide Branches, Parse, At;
    var open := i + |selector|;
    var close := open + 1 + |body|;
    CaseAt(text, i, selector, body, rest);
    BranchesOverSelector(text, i, selector);
    ParseStops(text, close);
    BranchesOverBody(text, open, names, close);
  }

  lemma CasesAt(text: string, i: nat, cases: string)
    requires At(text, i, cases + "}")
    ensures At(text, i, cases) && i + |cases| < |text| && text[i + |cases|] == '}'
    ensures At(text, i + |cases|, "}")
  {
    AtBoth(text, i, cases, "}");
    FirstAt(text, i + |cases|, "}");
  }

  lemma CaseAt(text: string, i: nat, selector: string, body: string, rest: string)
    requires At(text, i, selector + ("{" + (body + ("}" + rest))))
    ensures
      var open := i + |selector|;
      var close := open + 1 + |body|;
      && At(text, i, selector) && close < |text| && text[open] == '{' && At(text, open + 1, body)
      && text[close] == '}' && At(text, close + 1, rest)
  {
    var open := i + |selector|;
    var close := open + 1 + |body|;
    AtBoth(text, i, selector, "{" + (body + ("}" + rest)));
    AtBoth(text, open, "{", body + ("}" + rest));
    AtBoth(text, open + 1, body, "}" + rest);
    AtBoth(text, close, "}", rest);
    FirstAt(text, open, "{");
    FirstAt(text, close, "}");
  }

  lemma ParseStops(text: string, i: nat)
    requires i < |text| && text[i] == '}'
    ensures Parse(text, i, true) == Found({}, i)
  {
  }

  lemma BranchesOverBody(text: string, open: nat, names: set<string>, close: nat)
    requires open < |text| && text[open] == '{' && Parse(text, open + 1, true) == Found(names, close)
    ensures
      var rest := Branches(text, close + 1);
      Branches(text, open) == Found(names + rest.names, rest.end)
  {
  }

  lemma AtAppended(text: string, i: nat, a: string, b: string)
    requires At(text, i, a) && At(text, i + |a|, b)
    ensures At(text, i, a + b)
  {
  }

  /** Scanning a printed message finds exactly the argument names of its tree. */
  lemma PrintedNamesAreFound(m: Message)
    requires IsMessage(m, Top, false)
    ensures Parse(Print(m), 0, false).names == Names(m)
  {
    hide IsMessage, Print, Names;
    ParseOverMessage(Print(m), 0, false, m, Top, false);
    NothingIsLeft(Print(m));
  }

  lemma NothingIsLeft(text: string)
    ensures Parse(text, |text|, false) == Found({}, |text|)
  {
  }

  lemma PrintOfQuote(text: string)
    ensures Print(Then(Quoted(text), End)) == "'" + (Doubled(text) + "'")
  {
  }

  lemma LeakIsDoubled()
    ensures Doubled("{'a}{b}") == "{''a}{b}"
  {
    hide Doubled;
    DoubledAtApostrophe("{", "a}{b}");
    DoubledOfPlain("a}{b}");
    assert "{" + ("'" + "a}{b}") == "{'a}{b}";
  }

  /** A doubled apostrophe before any other character leaves the quote for good. The message is a
      single quoted text and has no argument, but `b` is reported. */
  lemma DoubledApostropheLeaksNames()
    ensures Parse(Print(Then(Quoted("{'a}{b}"), End)), 0, false).names == {"b"}
  {
    hide *;
    PrintOfQuote("{'a}{b}");
    LeakIsDoubled();
    assert "'" + ("{''a}{b}" + "'") == "'{''a}{b}'";
    LeakingScan();
  }

  lemma LeakingScan()
    ensures Parse("'{''a}{b}'", 0, false).names == {"b"}
  {
    var text := "'{''a}{b}'";
    assert AfterQuote(text, 0) == 3;
    assert MatchHead(text, 6) == Head("b", None, 8);
    assert Close(text, 8, 1) == 9;
    assert Parse(text, 9, false) == Parse(text, 10, false) == Found({}, 10);
    assert Parse(text, 6, false) == Found({"b"}, 10);
    assert Parse(text, 5, false) == Parse(text, 4, false) == Parse(text, 3, false);
  }
}
