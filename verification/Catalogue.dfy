/** Message catalogues: dotted keys against the walk through nested objects, and the comparison of
    two languages. */
module Catalogue {
  import opened Wrappers
  import opened Fields
  import opened Images

  datatype Value = Str(s: string) | Null | Other

  /** A JSON object keeps its members in order; no key comes twice. */
  datatype Node = Leaf(value: Value) | Object(members: Members)
  datatype Members = NoMembers | Member(key: string, node: Node, rest: Members)

  predicate HasKey(m: Members, key: string) {
    m.Member? && (m.key == key || HasKey(m.rest, key))
  }

  predicate HasUniqueKeys(m: Members) {
    m.Member? ==>
      !HasKey(m.rest, m.key) && (m.node.Object? ==> HasUniqueKeys(m.node.members)) && HasUniqueKeys(m.rest)
  }

  predicate HasNoDots(m: Members) {
    m.Member? ==>
      Without(m.key, '.') && (m.node.Object? ==> HasNoDots(m.node.members)) && HasNoDots(m.rest)
  }

  predicate IsDotFree(m: Members) { HasUniqueKeys(m) && HasNoDots(m) }

  /** No member with an empty key holds an object with members: its key would drop out of the path. */
  predicate HidesNothing(m: Members) {
    m.Member? ==> (m.key == "" ==> IsEnd(m.node)) && HidesNothing(m.rest)
  }

  predicate IsEnd(n: Node) { n.Leaf? || n.members == NoMembers }

  function Extend(prefix: string, key: string): string {
    if prefix != "" then prefix + ("." + key) else key
  }

  /** Dotted keys and what they end at; of two members with one dotted key the later wins. */
  function Flatten(m: Members, prefix: string): map<string, Node> {
    match m
    case NoMembers => map[]
    case Member(key, node, rest) =>
      var path := Extend(prefix, key);
      (if IsEnd(node) then map[path := node] else Flatten(node.members, path)) + Flatten(rest, prefix)
  }

  function Get(m: Members, key: string): Option<Node> {
    if m == NoMembers then None else if m.key == key then Some(m.node) else Get(m.rest, key)
  }

  function Walk(node: Node, parts: seq<string>): Option<Node>
    decreases |parts|
  {
    if parts == [] then Some(node)
    else if node.Leaf? then None
    else
      var next := Get(node.members, parts[0]);
      if next.None? then None else Walk(next.value, parts[1..])
  }

  // ----- the loops of the scripts

  lemma LaterMapWins<K, V>(a: map<K, V>, b: map<K, V>, c: map<K, V>)
    ensures a + (b + c) == a + b + c
  {
  }

  method FlattenMembers(m: Members, prefix: string) returns (out: map<string, Node>)
    ensures out == Flatten(m, prefix)
    decreases m
  {
    out := map[];
    var left := m;
    while left.Member?
      invariant left == m || left < m
      invariant out + Flatten(left, prefix) == Flatten(m, prefix)
      decreases left
    {
      var path := Extend(prefix, left.key);
      var inner := map[path := left.node];
      if !IsEnd(left.node) {
        inner := FlattenMembers(left.node.members, path);
      }
      LaterMapWins(out, inner, Flatten(left.rest, prefix));
      out := out + inner;
      left := left.rest;
    }
  }

  /** A missing path and a null value look the same to the caller. */
  method Resolve(messages: Members, path: string) returns (r: Option<Node>)
    ensures
      var end := Walk(Object(messages), SplitOn(path, '.'));
      r == if end == Some(Leaf(Null)) then None else end
  {
    var node := Object(messages);
    var parts := SplitOn(path, '.');
    for i := 0 to |parts|
      invariant Walk(node, parts[i..]) == Walk(Object(messages), parts)
    {
      assert parts[i..][1..] == parts[i + 1..];
      if node.Leaf? {
        return None;
      }
      var next := Get(node.members, parts[i]);
      if next.None? {
        return None;
      }
      node := next.value;
    }
    return if node == Leaf(Null) then None else Some(node);
  }

  // ----- flatten against the walk

  predicate AreDotFree(parts: seq<string>) {
    forall p :: p in parts ==> Without(p, '.')
  }

  function Dotted(parts: seq<string>): string {
    if parts == [] then "" else JoinWith(parts, '.')
  }

  lemma {:induction false} JoinWithLast(parts: seq<string>, last: string)
    requires parts != []
    ensures JoinWith(parts + [last], '.') == JoinWith(parts, '.') + ("." + last)
    decreases |parts|
  {
    if |parts| > 1 {
      assert (parts + [last])[1..] == parts[1..] + [last];
      JoinWithLast(parts[1..], last);
    }
  }

  lemma DottedExtends(parts: seq<string>, key: string)
    requires parts != [""]
    ensures Extend(Dotted(parts), key) == Dotted(parts + [key])
  {
    if parts == [] {
      assert [] + [key] == [key];
    } else {
      assert |parts| == 1 ==> parts == [parts[0]];
      assert JoinWith(parts, '.') != "";
      JoinWithLast(parts, key);
    }
  }

  lemma DottedIsSplit(parts: seq<string>, path: string)
    requires parts != [] && AreDotFree(parts)
    ensures path == Dotted(parts) <==> SplitOn(path, '.') == parts
  {
    SplitUndoesJoin(parts, '.');
    JoinUndoesSplit(path, '.');
  }

  /** The end that the parts lead to, if they lead to one. */
  function EndAt(m: Members, parts: seq<string>): Option<Node>
    requires parts != []
  {
    var end := Walk(Object(m), parts);
    if end.Some? && IsEnd(end.value) then end else None
  }

  function Find(out: map<string, Node>, path: string): Option<Node> {
    if path in out then Some(out[path]) else None
  }

  /** Under the prefix `pre`, what flattening says of a path. */
  function Expected(m: Members, pre: seq<string>, path: string): Option<Node> {
    var parts := SplitOn(path, '.');
    if |parts| > |pre| && parts[..|pre|] == pre then EndAt(m, parts[|pre|..]) else None
  }

  lemma EndAtFirst(m: Members, parts: seq<string>)
    requires m.Member? && parts != [] && parts[0] == m.key
    ensures EndAt(m, parts) ==
      if |parts| == 1 then (if IsEnd(m.node) then Some(m.node) else None)
      else if m.node.Leaf? then None else EndAt(m.node.members, parts[1..])
  {
    assert Walk(Object(m), parts) == Walk(m.node, parts[1..]);
  }

  lemma EndAtLater(m: Members, parts: seq<string>)
    requires m.Member? && parts != [] && parts[0] != m.key
    ensures EndAt(m, parts) == EndAt(m.rest, parts)
  {
  }

  lemma EndAtNothing(m: Members, parts: seq<string>)
    requires parts != [] && !HasKey(m, parts[0])
    ensures EndAt(m, parts) == None
  {
  }

  lemma {:induction false} FlattenIsExpected(m: Members, pre: seq<string>, path: string)
    requires IsDotFree(m) && AreDotFree(pre) && pre != [""] && (pre == [] ==> HidesNothing(m))
    ensures Find(Flatten(m, Dotted(pre)), path) == Expected(m, pre, path)
    decreases m
  {
    hide Walk, EndAt, SplitOn, JoinWith;
    var parts := SplitOn(path, '.');
    if m == NoMembers {
      if |parts| > |pre| {
        EndAtNothing(m, parts[|pre|..]);
      }
    } else {
      var own := pre + [m.key];
      assert AreDotFree(own);
      DottedExtends(pre, m.key);
      FlattenIsExpected(m.rest, pre, path);
      DottedIsSplit(own, path);
      if !IsEnd(m.node) {
        assert pre == [] ==> own[0] == m.key;
        FlattenIsExpected(m.node.members, own, path);
      } else if m.node.Object? && |parts| > |own| {
        EndAtNothing(m.node.members, parts[|own|..]);
      }
      if |parts| > |pre| && parts[..|pre|] == pre {
        FirstKey(m, parts, pre);
      } else {
        LongerPrefixFails(parts, pre, m.key);
      }
    }
  }

  lemma LongerPrefixFails(parts: seq<string>, pre: seq<string>, key: string)
    requires |parts| > |pre| ==> parts[..|pre|] != pre
    ensures parts != pre + [key]
    ensures |parts| > |pre| + 1 ==> parts[..|pre| + 1] != pre + [key]
  {
  }

  lemma FirstKey(m: Members, parts: seq<string>, pre: seq<string>)
    requires m.Member? && !HasKey(m.rest, m.key) && |parts| > |pre| && parts[..|pre|] == pre
    ensures parts == pre + [m.key] <==> parts[|pre|] == m.key && |parts| == |pre| + 1
    ensures |parts| > |pre| + 1 ==> (parts[..|pre| + 1] == pre + [m.key] <==> parts[|pre|] == m.key)
    ensures parts[|pre|] == m.key ==> EndAt(m.rest, parts[|pre|..]) == None
    ensures parts[|pre|] != m.key ==> EndAt(m, parts[|pre|..]) == EndAt(m.rest, parts[|pre|..])
    ensures
      parts[|pre|] == m.key ==>
        EndAt(m, parts[|pre|..]) ==
          (if |parts| == |pre| + 1 then (if IsEnd(m.node) then Some(m.node) else None)
           else if m.node.Leaf? then None else EndAt(m.node.members, parts[|pre| + 1..]))
  {
    var tail := parts[|pre|..];
    assert parts[..|pre| + 1] == pre + [parts[|pre|]];
    assert |parts| == |pre| + 1 ==> parts[..|pre| + 1] == parts;
    assert tail[1..] == parts[|pre| + 1..];
    if tail[0] == m.key {
      EndAtFirst(m, tail);
      EndAtNothing(m.rest, tail);
    } else {
      EndAtLater(m, tail);
    }
  }

  lemma {:induction false} NoKeyStartsWithDot(m: Members, prefix: string, path: string)
    requires IsDotFree(m) && (prefix != "" ==> prefix[0] != '.')
    requires path in Flatten(m, prefix)
    ensures path != "" ==> path[0] != '.'
    decreases m
  {
    if path in Flatten(m.rest, prefix) {
      NoKeyStartsWithDot(m.rest, prefix, path);
    } else if !IsEnd(m.node) {
      NoKeyStartsWithDot(m.node.members, Extend(prefix, m.key), path);
    }
  }

  /** Every object with members leads somewhere. */
  lemma {:induction false} SomeEnd(m: Members) returns (parts: seq<string>)
    requires m.Member? && IsDotFree(m)
    ensures parts != [] && AreDotFree(parts) && EndAt(m, parts).Some?
    decreases m
  {
    if IsEnd(m.node) {
      parts := [m.key];
    } else {
      var deeper := SomeEnd(m.node.members);
      parts := [m.key] + deeper;
      assert parts[1..] == deeper;
    }
    EndAtFirst(m, parts);
  }

  lemma {:induction false} HiddenPath(m: Members) returns (path: string)
    requires IsDotFree(m) && !HidesNothing(m)
    ensures EndAt(m, SplitOn(path, '.')).Some? && path != "" && path[0] == '.'
    decreases m
  {
    if m.key == "" && !IsEnd(m.node) {
      var deeper := SomeEnd(m.node.members);
      var parts := [""] + deeper;
      path := JoinWith(parts, '.');
      SplitUndoesJoin(parts, '.');
      assert parts[1..] == deeper;
      EndAtFirst(m, parts);
    } else {
      path := HiddenPath(m.rest);
      SplitAtDot(path);
      var parts := SplitOn(path, '.');
      if m.key == "" {
        EndAtNothing(m.rest, parts);
      }
      EndAtLater(m, parts);
    }
  }

  lemma SplitAtDot(path: string)
    requires path != "" && path[0] == '.'
    ensures SplitOn(path, '.')[0] == ""
  {
  }

  /** A path is a flattened key exactly when the walk ends there, with the same value. */
  ghost predicate Agrees(m: Members) {
    forall path :: Find(Flatten(m, ""), path) == EndAt(m, SplitOn(path, '.'))
  }

  lemma DotFreeAgreesIff(m: Members)
    requires IsDotFree(m)
    ensures Agrees(m) <==> HidesNothing(m)
  {
    if HidesNothing(m) {
      forall path
        ensures Find(Flatten(m, ""), path) == EndAt(m, SplitOn(path, '.'))
      {
        FlattenIsExpected(m, [], path);
        assert SplitOn(path, '.')[0..] == SplitOn(path, '.');
      }
    } else {
      var path := HiddenPath(m);
      if path in Flatten(m, "") {
        NoKeyStartsWithDot(m, "", path);
      }
      assert Find(Flatten(m, ""), path) == None;
    }
  }

  // ----- catalogues with dots in their keys

  /** The keys that lead to the ends of the catalogue. */
  function Ends(m: Members): set<seq<string>> {
    match m
    case NoMembers => {}
    case Member(key, node, rest) =>
      (if IsEnd(node) then {[key]} else set t | t in Ends(node.members) :: [key] + t) + Ends(rest)
  }

  /** The dotted key under which flattening files an end. */
  function Filed(keys: seq<string>, prefix: string): string
    decreases |keys|
  {
    if keys == [] then prefix else Filed(keys[1..], Extend(prefix, keys[0]))
  }

  /** No two ends are filed under one dotted key. */
  predicate HasDistinctPaths(m: Members) {
    forall t, u :: t in Ends(m) && u in Ends(m) && Filed(t, "") == Filed(u, "") ==> t == u
  }

  lemma {:induction false} EndsAreFiled(m: Members, prefix: string, keys: seq<string>)
    requires keys in Ends(m)
    ensures Filed(keys, prefix) in Flatten(m, prefix)
    decreases m
  {
    if keys in Ends(m.rest) {
      EndsAreFiled(m.rest, prefix, keys);
    } else if IsEnd(m.node) {
      assert Filed(keys[1..], Extend(prefix, m.key)) == Extend(prefix, m.key);
    } else {
      var t :| t in Ends(m.node.members) && keys == [m.key] + t;
      assert keys[1..] == t;
      EndsAreFiled(m.node.members, Extend(prefix, m.key), t);
    }
  }

  lemma {:induction false} EndAtIsEnd(m: Members, keys: seq<string>)
    requires keys != [] && EndAt(m, keys).Some?
    ensures keys in Ends(m)
    decreases m
  {
    if m.Member? && keys[0] == m.key {
      EndAtFirst(m, keys);
      if |keys| == 1 {
        assert keys == [m.key];
      } else {
        EndAtIsEnd(m.node.members, keys[1..]);
        assert keys == [m.key] + keys[1..];
      }
    } else if m.Member? {
      EndAtLater(m, keys);
      EndAtIsEnd(m.rest, keys);
    }
  }

  lemma {:induction false} SomeEndBelow(m: Members) returns (keys: seq<string>)
    requires m.Member?
    ensures keys in Ends(m)
    decreases m
  {
    if IsEnd(m.node) {
      keys := [m.key];
    } else {
      var deeper := SomeEndBelow(m.node.members);
      keys := [m.key] + deeper;
    }
  }

  lemma {:induction false} DottedEnd(m: Members) returns (keys: seq<string>)
    requires !HasNoDots(m)
    ensures keys in Ends(m) && !AreDotFree(keys)
    decreases m
  {
    if !HasNoDots(m.rest) {
      keys := DottedEnd(m.rest);
    } else if !Without(m.key, '.') {
      if IsEnd(m.node) {
        keys := [m.key];
      } else {
        var deeper := SomeEndBelow(m.node.members);
        keys := [m.key] + deeper;
      }
      assert keys[0] == m.key;
    } else {
      var deeper := DottedEnd(m.node.members);
      keys := [m.key] + deeper;
      var p :| p in deeper && !Without(p, '.');
      assert p in keys;
    }
  }

  /** The parts that a lookup makes of the dotted key of an end. */
  function LookedUp(keys: seq<string>): seq<string> { SplitOn(Filed(keys, ""), '.') }

  lemma SplitIsInjective(a: string, b: string)
    requires SplitOn(a, '.') == SplitOn(b, '.')
    ensures a == b
  {
    JoinUndoesSplit(a, '.');
    JoinUndoesSplit(b, '.');
  }

  lemma LookedUpIsEnd(m: Members, t: seq<string>)
    requires Agrees(m) && t in Ends(m)
    ensures LookedUp(t) in Ends(m)
  {
    hide Ends, Filed, Flatten, EndAt, SplitOn;
    EndsAreFiled(m, "", t);
    assert Find(Flatten(m, ""), Filed(t, "")) == EndAt(m, LookedUp(t));
    EndAtIsEnd(m, LookedUp(t));
  }

  lemma LookedUpStaysIn(m: Members)
    requires Agrees(m)
    ensures StaysIn(Ends(m), LookedUp)
  {
    hide Agrees, Ends, LookedUp;
    forall t {:trigger LookedUp(t)} | t in Ends(m)
      ensures LookedUp(t) in Ends(m)
    {
      LookedUpIsEnd(m, t);
    }
  }

  lemma LookedUpIsOneToOne(m: Members)
    requires HasDistinctPaths(m)
    ensures IsOneToOne(Ends(m), LookedUp)
  {
    hide Ends, Filed, SplitOn;
    forall t, u {:trigger LookedUp(t), LookedUp(u)} | t in Ends(m) && u in Ends(m) && LookedUp(t) == LookedUp(u)
      ensures t == u
    {
      SplitIsInjective(Filed(t, ""), Filed(u, ""));
    }
  }

  lemma LookedUpIsDotFree(t: seq<string>)
    ensures AreDotFree(LookedUp(t))
  {
    hide SplitOn, Filed;
    forall p | p in LookedUp(t)
      ensures Without(p, '.')
    {
      SplitPartsAreFree(Filed(t, ""), '.', p);
    }
  }

  /** When lookups agree with distinct flattened keys, every end is looked up by dot free parts. */
  lemma AgreeingHasNoDots(m: Members)
    requires HasDistinctPaths(m) && Agrees(m)
    ensures HasNoDots(m)
  {
    hide *;
    if !HasNoDots(m) {
      var keys := DottedEnd(m);
      LookedUpStaysIn(m);
      LookedUpIsOneToOne(m);
      var t := OneToOneIsOnto(Ends(m), LookedUp, keys);
      LookedUpIsDotFree(t);
    }
  }

  /** In a catalogue without dots in its keys, or one whose ends are filed under different keys, the
      flattened keys are exactly the paths that lookups reach, with the same values, if and only if
      no key has a dot and no empty key hides an object. */
  lemma FlattenAgreesWithWalkIff(m: Members)
    requires HasUniqueKeys(m) && (HasNoDots(m) || HasDistinctPaths(m))
    ensures Agrees(m) <==> HasNoDots(m) && HidesNothing(m)
  {
    hide Agrees, HasUniqueKeys, HasNoDots, HidesNothing, HasDistinctPaths;
    if HasNoDots(m) {
      DotFreeAgreesIff(m);
    } else if Agrees(m) {
      AgreeingHasNoDots(m);
    }
  }

  /** A dot inside a key breaks the agreement too. */
  lemma DottedKeysDisagree()
    ensures
      var dotted := Member("a.b", Leaf(Str("x")), NoMembers);
      "a.b" in Flatten(dotted, "") && Walk(Object(dotted), SplitOn("a.b", '.')) == None
  {
    SplitUndoesJoin(["a", "b"], '.');
    assert JoinWith(["a", "b"], '.') == "a.b";
    assert SplitOn("a.b", '.')[0] == "a";
  }

  // ----- two languages

  datatype Locale = De | En

  datatype Finding =
    | EmptyValue(locale: Locale, key: string)
    | NotAString(locale: Locale, key: string)
    | Dash(key: string, dash: char)
    | OnlyIn(locale: Locale, key: string)

  const DASHES := {'\U{2013}', '\U{2014}'}

  predicate IsEmptyValue(n: Node) {
    n == Leaf(Str("")) || n == Leaf(Null) || n == Object(NoMembers)
  }

  predicate IsString(n: Node) { n.Leaf? && n.value.Str? }

  function ValueFinding(locale: Locale, key: string, n: Node): set<Finding> {
    if IsEmptyValue(n) then {EmptyValue(locale, key)}
    else if !IsString(n) then {NotAString(locale, key)}
    else {}
  }

  function DashFindings(key: string, n: Node): set<Finding> {
    if IsString(n) then set d | d in DASHES && d in n.value.s :: Dash(key, d) else {}
  }

  /** What the comparison of two flattened catalogues has to report. */
  predicate Reported(de: map<string, Node>, en: map<string, Node>, x: Finding) {
    match x
    case EmptyValue(l, key) =>
      var flat := if l == De then de else en;
      key in flat && IsEmptyValue(flat[key])
    case NotAString(l, key) =>
      var flat := if l == De then de else en;
      key in flat && !IsEmptyValue(flat[key]) && !IsString(flat[key])
    case Dash(key, d) => key in de && IsString(de[key]) && d in DASHES && d in de[key].value.s
    case OnlyIn(l, key) => if l == De then key in de && key !in en else key in en && key !in de
  }

  method CheckValues(locale: Locale, flat: map<string, Node>) returns (findings: set<Finding>)
    ensures forall x :: x in findings <==> exists key :: key in flat && x in ValueFinding(locale, key, flat[key])
  {
    findings := {};
    var left := flat.Keys;
    while left != {}
      invariant left <= flat.Keys
      invariant forall x :: x in findings <==>
        exists key :: key in flat && key !in left && x in ValueFinding(locale, key, flat[key])
      decreases left
    {
      var key :| key in left;
      findings := findings + ValueFinding(locale, key, flat[key]);
      left := left - {key};
    }
  }

  method CheckDashes(flat: map<string, Node>) returns (findings: set<Finding>)
    ensures forall x :: x in findings <==> exists key :: key in flat && x in DashFindings(key, flat[key])
  {
    findings := {};
    var left := flat.Keys;
    while left != {}
      invariant left <= flat.Keys
      invariant forall x :: x in findings <==>
        exists key :: key in flat && key !in left && x in DashFindings(key, flat[key])
      decreases left
    {
      var key :| key in left;
      findings := findings + DashFindings(key, flat[key]);
      left := left - {key};
    }
  }

  method CheckApp(de: Members, en: Members) returns (findings: set<Finding>)
    ensures forall x :: x in findings <==> Reported(Flatten(de, ""), Flatten(en, ""), x)
  {
    var flatDe := FlattenMembers(de, "");
    var flatEn := FlattenMembers(en, "");
    var valuesDe := CheckValues(De, flatDe);
    var valuesEn := CheckValues(En, flatEn);
    var dashes := CheckDashes(flatDe);
    var onlyDe := set key | key in flatDe.Keys - flatEn.Keys :: OnlyIn(De, key);
    var onlyEn := set key | key in flatEn.Keys - flatDe.Keys :: OnlyIn(En, key);
    findings := valuesDe + valuesEn + dashes + onlyDe + onlyEn;
    forall x
      ensures x in findings <==> Reported(flatDe, flatEn, x)
    {
      ReportedByParts(flatDe, flatEn, valuesDe, valuesEn, dashes, x);
    }
  }

  lemma ReportedByParts(de: map<string, Node>, en: map<string, Node>,
                        valuesDe: set<Finding>, valuesEn: set<Finding>, dashes: set<Finding>, x: Finding)
    requires x in valuesDe <==> exists key :: key in de && x in ValueFinding(De, key, de[key])
    requires x in valuesEn <==> exists key :: key in en && x in ValueFinding(En, key, en[key])
    requires x in dashes <==> exists key :: key in de && x in DashFindings(key, de[key])
    ensures Reported(de, en, x) <==>
      x in valuesDe || x in valuesEn || x in dashes
      || (x.OnlyIn? && x.locale == De && x.key in de && x.key !in en)
      || (x.OnlyIn? && x.locale == En && x.key in en && x.key !in de)
  {
  }

  /** When flattened keys are the paths of both languages and the check is silent, every path that
      leads to a text in one language leads to a text, and not an empty one, in the other. */
  lemma SilentCheckMeansSameTexts(de: Members, en: Members, path: string)
    requires Agrees(de) && Agrees(en)
    requires forall x :: !Reported(Flatten(de, ""), Flatten(en, ""), x)
    ensures
      var parts := SplitOn(path, '.');
      var inDe, inEn := EndAt(de, parts), EndAt(en, parts);
      && (inDe.Some? <==> inEn.Some?)
      && (inDe.Some? ==> IsString(inDe.value) && IsString(inEn.value)
                         && inDe.value.value.s != "" && inEn.value.value.s != "")
  {
    var flatDe, flatEn := Flatten(de, ""), Flatten(en, "");
    assert !Reported(flatDe, flatEn, OnlyIn(De, path)) && !Reported(flatDe, flatEn, OnlyIn(En, path));
    assert !Reported(flatDe, flatEn, EmptyValue(De, path)) && !Reported(flatDe, flatEn, EmptyValue(En, path));
    assert !Reported(flatDe, flatEn, NotAString(De, path)) && !Reported(flatDe, flatEn, NotAString(En, path));
  }
}
