/** The scanner that lists the argument names of an ICU message. */
module IcuArguments {
  import opened Wrappers
  import opened Text

  const BRANCHING := {"plural", "select", "selectordinal"}

  /** What `\{\s*([A-Za-z_]\w*)\s*(,\s*([A-Za-z]+)\s*)?` takes from an opening brace on. */
  datatype Head = NoHead | Head(name: string, kind: Option<string>, end: nat)

  predicate IsNameStart(c: char) { IsLetter(c) || c == '_' }

  function MatchHead(text: string, i: nat): (h: Head)
    requires i < |text|
    ensures h.Head? ==> i < h.end <= |text|
  {
    var nameAt := Skip(text, i + 1, IsSpace);
    if nameAt == |text| || !IsNameStart(text[nameAt]) then NoHead
    else
      var nameEnd := Skip(text, nameAt + 1, IsWord);
      var name := text[nameAt..nameEnd];
      MatchKind(text, Skip(text, nameEnd, IsSpace), name)
  }

  /** The optional type of the head. */
  function MatchKind(text: string, comma: nat, name: string): (h: Head)
    requires comma <= |text|
    ensures h.Head? && comma <= h.end <= |text|
  {
    if comma == |text| || text[comma] != ',' then Head(name, None, comma)
    else
      var kindAt := Skip(text, comma + 1, IsSpace);
      var kindEnd := Skip(text, kindAt, IsLetter);
      if kindAt == kindEnd then Head(name, None, comma)
      else Head(name, Some(text[kindAt..kindEnd]), Skip(text, kindEnd, IsSpace))
  }

  predicate IsBranching(h: Head) {
    h.Head? && h.kind.Some? && h.kind.value in BRANCHING
  }

  predicate OpensQuote(text: string, i: nat)
    requires i < |text|
  {
    text[i] == '\'' && i + 1 < |text| && text[i + 1] in "{}'"
  }

  function NotApostrophe(c: char): bool { c != '\'' }

  /** The position after the apostrophe that ends a quote opened at `i`, or the end of the text. */
  function AfterQuote(text: string, i: nat): (j: nat)
    requires i < |text|
    ensures i < j <= |text|
  {
    var end := Skip(text, i + 1, NotApostrophe);
    if end == |text| then end else end + 1
  }

  function AfterComma(text: string, i: nat): (j: nat)
    ensures i <= j
  {
    if i < |text| && text[i] == ',' then i + 1 else i
  }

  /** The position after the brace that brings `depth` to zero; braces count even inside quotes. */
  function Close(text: string, i: nat, depth: nat): (j: nat)
    ensures i <= j
    decreases |text| - i
  {
    if i < |text| && depth > 0 then
      Close(text, i + 1, if text[i] == '{' then depth + 1 else if text[i] == '}' then depth - 1 else depth)
    else i
  }

  datatype Found = Found(names: set<string>, end: nat)

  /** Names from position `i` on; with `stop` the scan ends before an unquoted closing brace. */
  function Parse(text: string, i: nat, stop: bool): (r: Found)
    ensures i <= r.end
    decreases |text| - i, 1
  {
    if i >= |text| then Found({}, i)
    else if OpensQuote(text, i) then Parse(text, AfterQuote(text, i), stop)
    else if text[i] == '}' && stop then Found({}, i)
    else if text[i] == '{' && MatchHead(text, i).Head? then
      var h := MatchHead(text, i);
      var argument := Argument(text, h);
      var rest := Parse(text, argument.end, stop);
      Found({h.name} + argument.names + rest.names, rest.end)
    else Parse(text, i + 1, stop)
  }

  /** The rest of an argument after its head. */
  function Argument(text: string, h: Head): (r: Found)
    requires h.Head?
    ensures h.end <= r.end
    decreases |text| - h.end, 2
  {
    if IsBranching(h) then
      var branches := Branches(text, AfterComma(text, h.end));
      branches.(end := branches.end + 1)
    else Found({}, Close(text, h.end, 1))
  }

  /** Selector and body pairs up to the closing brace of the argument. */
  function Branches(text: string, i: nat): (r: Found)
    ensures i <= r.end
    decreases |text| - i, 0
  {
    if i >= |text| || text[i] == '}' then Found({}, i)
    else if text[i] == '{' then
      var body := Parse(text, i + 1, true);
      var rest := Branches(text, body.end + 1);
      Found(body.names + rest.names, rest.end)
    else Branches(text, i + 1)
  }

  // ----- the loops of the script

  method ScanClose(text: string, from: nat) returns (i: nat)
    ensures i == Close(text, from, 1)
  {
    i := from;
    var depth := 1;
    while i < |text| && depth > 0
      invariant 0 <= depth
      invariant Close(text, i, depth) == Close(text, from, 1)
    {
      depth := depth + (if text[i] == '{' then 1 else if text[i] == '}' then -1 else 0);
      i := i + 1;
    }
  }

  method ScanBranches(text: string, from: nat, seen: set<string>) returns (i: nat, names: set<string>)
    ensures i == Branches(text, from).end
    ensures names == seen + Branches(text, from).names
    decreases |text| - from, 0
  {
    i, names := from, seen;
    while i < |text| && text[i] != '}'
      invariant from <= i
      invariant Branches(text, i).end == Branches(text, from).end
      invariant names + Branches(text, i).names == seen + Branches(text, from).names
      decreases |text| - i
    {
      if text[i] == '{' {
        var end, inner := ScanFrom(text, i + 1, true, names);
        names := inner;
        i := end + 1;
      } else {
        i := i + 1;
      }
    }
  }

  method ScanArgument(text: string, h: Head, seen: set<string>) returns (i: nat, names: set<string>)
    requires h.Head?
    ensures i == Argument(text, h).end
    ensures names == seen + Argument(text, h).names
    decreases |text| - h.end, 2
  {
    if IsBranching(h) {
      i, names := ScanBranches(text, AfterComma(text, h.end), seen);
      i := i + 1;
    } else {
      i := ScanClose(text, h.end);
      names := seen;
    }
  }

  lemma ArgumentStep(text: string, i: nat, stop: bool, seen: set<string>)
    requires i < |text| && text[i] == '{' && MatchHead(text, i).Head?
    ensures
      var h := MatchHead(text, i);
      var argument := Argument(text, h);
      && Parse(text, i, stop).end == Parse(text, argument.end, stop).end
      && seen + Parse(text, i, stop).names
         == seen + {h.name} + argument.names + Parse(text, argument.end, stop).names
  {
  }

  method ScanFrom(text: string, from: nat, stop: bool, seen: set<string>) returns (i: nat, names: set<string>)
    ensures i == Parse(text, from, stop).end
    ensures names == seen + Parse(text, from, stop).names
    decreases |text| - from, 1
  {
    i, names := from, seen;
    while i < |text|
      invariant from <= i
      invariant Parse(text, i, stop).end == Parse(text, from, stop).end
      invariant names + Parse(text, i, stop).names == seen + Parse(text, from, stop).names
      decreases |text| - i
    {
      if OpensQuote(text, i) {
        i := AfterQuote(text, i);
      } else if text[i] == '}' && stop {
        return;
      } else if text[i] == '{' {
        var h := MatchHead(text, i);
        if h == NoHead {
          i := i + 1;
        } else {
          ghost var was, at := names, i;
          i, names := ScanArgument(text, h, names + {h.name});
          ArgumentStep(text, at, stop, was);
        }
      } else {
        i := i + 1;
      }
    }
  }

  method ArgumentNames(message: string) returns (names: set<string>)
    ensures names == Parse(message, 0, false).names
  {
    var end;
    end, names := ScanFrom(message, 0, false, {});
  }
}
