/** Where a lookup path leads, said through the members on the way, and what is reported for it. */
module CataloguePaths {
  import opened Wrappers
  import opened Fields
  import opened Catalogue

  predicate IsMember(m: Members, key: string, n: Node) {
    m.Member? && ((m.key == key && m.node == n) || IsMember(m.rest, key, n))
  }

  /** Every node but the first is the member of the one before it under the next part. */
  predicate IsPath(nodes: seq<Node>, parts: seq<string>) {
    |nodes| == |parts| + 1
    && forall i :: 0 <= i < |parts| ==> nodes[i].Object? && IsMember(nodes[i].members, parts[i], nodes[i + 1])
  }

  ghost predicate Leads(from: Node, parts: seq<string>, end: Node) {
    exists nodes :: IsPath(nodes, parts) && nodes[0] == from && nodes[|parts|] == end
  }

  predicate IsUnique(n: Node) { n.Object? ==> HasUniqueKeys(n.members) }

  lemma {:induction false} MemberHasKey(m: Members, key: string, n: Node)
    requires IsMember(m, key, n)
    ensures HasKey(m, key)
    decreases m
  {
    if !(m.key == key && m.node == n) {
      MemberHasKey(m.rest, key, n);
    }
  }

  lemma {:induction false} GetIsMember(m: Members, key: string, n: Node)
    requires HasUniqueKeys(m)
    ensures Get(m, key) == Some(n) <==> IsMember(m, key, n)
    ensures IsMember(m, key, n) ==> IsUnique(n)
    decreases m
  {
    if m.Member? {
      GetIsMember(m.rest, key, n);
      if m.key == key && IsMember(m.rest, key, n) {
        MemberHasKey(m.rest, key, n);
      }
    }
  }

  lemma PathFromNext(nodes: seq<Node>, parts: seq<string>)
    requires parts != []
    ensures IsPath(nodes, parts) <==>
      && |nodes| == |parts| + 1 && nodes[0].Object? && IsMember(nodes[0].members, parts[0], nodes[1])
      && IsPath(nodes[1..], parts[1..])
  {
    hide IsMember;
    if |nodes| == |parts| + 1 && IsPath(nodes[1..], parts[1..]) {
      var later, names := nodes[1..], parts[1..];
      forall i | 0 < i < |parts|
        ensures nodes[i].Object? && IsMember(nodes[i].members, parts[i], nodes[i + 1])
      {
        assert later[i - 1].Object? && IsMember(later[i - 1].members, names[i - 1], later[i - 1 + 1]);
      }
    }
  }

  lemma LeadsFirst(from: Node, parts: seq<string>, end: Node)
    requires parts != []
    ensures Leads(from, parts, end) <==>
      from.Object? && exists next :: IsMember(from.members, parts[0], next) && Leads(next, parts[1..], end)
  {
    hide IsMember;
    if Leads(from, parts, end) {
      var nodes :| IsPath(nodes, parts) && nodes[0] == from && nodes[|parts|] == end;
      PathFromNext(nodes, parts);
      assert Leads(nodes[1], parts[1..], end);
    }
    if from.Object? {
      forall next | IsMember(from.members, parts[0], next) && Leads(next, parts[1..], end)
        ensures Leads(from, parts, end)
      {
        var nodes :| IsPath(nodes, parts[1..]) && nodes[0] == next && nodes[|parts| - 1] == end;
        assert ([from] + nodes)[1..] == nodes;
        PathFromNext([from] + nodes, parts);
        assert ([from] + nodes)[|parts|] == end;
      }
    }
  }

  lemma LeadsNowhere(from: Node, end: Node)
    ensures Leads(from, [], end) <==> from == end
  {
    if from == end {
      assert IsPath([from], []);
    }
  }

  /** A lookup finds what its parts lead to from member to member, objects on the way included, and
      nothing if they lead nowhere. */
  lemma {:induction false} WalkFollowsMembers(from: Node, parts: seq<string>, end: Node)
    requires IsUnique(from)
    ensures Walk(from, parts) == Some(end) <==> Leads(from, parts, end)
    decreases |parts|
  {
    hide Leads, IsMember, IsUnique;
    if parts == [] {
      LeadsNowhere(from, end);
    } else {
      LeadsFirst(from, parts, end);
      if from.Object? {
        assert HasUniqueKeys(from.members) by { Unfold(from); }
        forall next
          ensures Get(from.members, parts[0]) == Some(next) <==> IsMember(from.members, parts[0], next)
          ensures IsMember(from.members, parts[0], next) ==> IsUnique(next)
        {
          GetIsMember(from.members, parts[0], next);
        }
        if Get(from.members, parts[0]).Some? {
          WalkFollowsMembers(Get(from.members, parts[0]).value, parts[1..], end);
        }
      }
    }
  }

  lemma Unfold(n: Node)
    requires IsUnique(n) && n.Object?
    ensures HasUniqueKeys(n.members)
  {
  }

  // ----- what is reported for a path

  predicate HoldsText(m: Members, path: string, s: string) {
    EndAt(m, SplitOn(path, '.')) == Some(Leaf(Str(s)))
  }

  /** A dash is reported exactly when it is an en dash or an em dash in a German text. */
  lemma DashIsReportedIff(de: Members, en: Members, path: string, dash: char)
    requires Agrees(de)
    ensures Reported(Flatten(de, ""), Flatten(en, ""), Dash(path, dash)) <==>
      (dash == '\U{2013}' || dash == '\U{2014}') && exists s :: HoldsText(de, path, s) && dash in s
  {
    var flat := Flatten(de, "");
    assert Catalogue.Find(flat, path) == EndAt(de, SplitOn(path, '.'));
    if path in flat && IsString(flat[path]) {
      assert HoldsText(de, path, flat[path].value.s);
    }
  }

  /** A value is reported as empty exactly when the path ends at an empty text, at null or at an
      object without members, and as no text when it ends at anything else but a text. */
  lemma ValueIsReportedIff(de: Members, en: Members, path: string)
    requires Agrees(de)
    ensures
      var end, flat, other := EndAt(de, SplitOn(path, '.')), Flatten(de, ""), Flatten(en, "");
      && (Reported(flat, other, EmptyValue(De, path)) <==>
            HoldsText(de, path, "") || end == Some(Leaf(Null)) || end == Some(Object(NoMembers)))
      && (Reported(flat, other, NotAString(De, path)) <==> end == Some(Leaf(Other)))
  {
    assert Catalogue.Find(Flatten(de, ""), path) == EndAt(de, SplitOn(path, '.'));
  }
}
