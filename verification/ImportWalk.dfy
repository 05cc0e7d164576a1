/** The walk over the server module graph that looks for misused exports of client modules. */
module ImportWalk {
  import opened Wrappers

  type Path = string

  /** One import statement; `target` is absent when the specifier names no file of the app. */
  datatype Import = Import(typeOnly: bool, target: Option<Path>, names: seq<string>)

  datatype Finding = Finding(file: Path, statement: nat, name: string)

  /** What the walk reads: route files in directory order, the imports of every file, the files
      marked as client modules, and the outcome of the usage test for each imported name. */
  datatype App = App(routes: seq<Path>, imports: map<Path, seq<Import>>, client: set<Path>, used: set<Finding>)

  /** Route files exist, and an import that resolves names an existing file. */
  predicate IsApp(app: App) {
    && (forall p :: p in app.routes ==> p in app.imports)
    && (forall f :: f in app.imports ==> forall m :: m in app.imports[f] ==>
          m.target.Some? ==> m.target.value in app.imports)
  }

  predicate Followed(app: App, m: Import) {
    !m.typeOnly && m.target.Some? && m.target.value !in app.client
  }

  predicate Inspected(app: App, m: Import) {
    !m.typeOnly && m.target.Some? && m.target.value in app.client
  }

  /** `g` is a server module that `f` imports. */
  predicate Edge(app: App, f: Path, g: Path) {
    f in app.imports && exists m :: m in app.imports[f] && Followed(app, m) && m.target.value == g
  }

  predicate IsRoot(app: App, f: Path) { f in app.routes && f !in app.client }

  ghost predicate IsWalk(app: App, path: seq<Path>) {
    && path != [] && IsRoot(app, path[0])
    && (forall i :: 0 <= i < |path| - 1 ==> Edge(app, path[i], path[i + 1]))
  }

  ghost predicate Reachable(app: App, f: Path) {
    exists path :: IsWalk(app, path) && path[|path| - 1] == f
  }

  function NamesUsed(app: App, f: Path, statement: nat, names: seq<string>): seq<Finding> {
    if names == [] then []
    else (if Finding(f, statement, names[0]) in app.used then [Finding(f, statement, names[0])] else [])
         + NamesUsed(app, f, statement, names[1..])
  }

  /** The findings of one file, from its `i`-th import on. */
  function FileFindings(app: App, f: Path, i: nat): seq<Finding>
    requires f in app.imports && i <= |app.imports[f]|
    decreases |app.imports[f]| - i
  {
    if i == |app.imports[f]| then []
    else
      var m := app.imports[f][i];
      (if Inspected(app, m) then NamesUsed(app, f, i, m.names) else []) + FileFindings(app, f, i + 1)
  }

  ghost function AllFindings(app: App, order: seq<Path>): seq<Finding>
    requires forall f :: f in order ==> f in app.imports
  {
    if order == [] then []
    else AllFindings(app, order[..|order| - 1]) + FileFindings(app, order[|order| - 1], 0)
  }

  /** Every module the server can reach, each once. */
  ghost predicate IsVisitOrder(app: App, order: seq<Path>) {
    && (forall f :: f in order <==> Reachable(app, f))
    && (forall i, j :: 0 <= i < j < |order| ==> order[i] != order[j])
    && (forall f :: f in order ==> f in app.imports)
  }

  method InspectNames(app: App, f: Path, statement: nat, names: seq<string>) returns (found: seq<Finding>)
    ensures found == NamesUsed(app, f, statement, names)
  {
    found := [];
    for k := 0 to |names|
      invariant found + NamesUsed(app, f, statement, names[k..]) == NamesUsed(app, f, statement, names)
    {
      assert names[k..][1..] == names[k + 1..];
      if Finding(f, statement, names[k]) in app.used {
        found := found + [Finding(f, statement, names[k])];
      }
    }
  }

  /** The server modules that the imports from the `i`-th on name, in order. */
  function Targets(app: App, f: Path, i: nat): seq<Path>
    requires f in app.imports && i <= |app.imports[f]|
    decreases |app.imports[f]| - i
  {
    if i == |app.imports[f]| then []
    else
      var m := app.imports[f][i];
      (if Followed(app, m) then [m.target.value] else []) + Targets(app, f, i + 1)
  }

  lemma {:induction false} InTargets(app: App, f: Path, i: nat, g: Path)
    requires f in app.imports && i <= |app.imports[f]|
    ensures g in Targets(app, f, i) <==>
      exists m :: m in app.imports[f][i..] && Followed(app, m) && m.target.value == g
    decreases |app.imports[f]| - i
  {
    if i < |app.imports[f]| {
      InTargets(app, f, i + 1, g);
      assert app.imports[f][i..] == [app.imports[f][i]] + app.imports[f][i + 1..];
    }
  }

  lemma TargetsAreEdges(app: App, f: Path)
    requires f in app.imports
    ensures forall g :: g in Targets(app, f, 0) <==> Edge(app, f, g)
  {
    assert app.imports[f][0..] == app.imports[f];
    forall g
      ensures g in Targets(app, f, 0) <==> Edge(app, f, g)
    {
      InTargets(app, f, 0, g);
    }
  }

  /** The loop over the imports of one file. */
  method Inspect(app: App, f: Path) returns (found: seq<Finding>, targets: seq<Path>)
    requires f in app.imports
    ensures found == FileFindings(app, f, 0)
    ensures targets == Targets(app, f, 0)
  {
    var imports := app.imports[f];
    found, targets := [], [];
    for i := 0 to |imports|
      invariant found + FileFindings(app, f, i) == FileFindings(app, f, 0)
      invariant targets + Targets(app, f, i) == Targets(app, f, 0)
    {
      var m := imports[i];
      ghost var moreFound, moreTargets := FileFindings(app, f, i + 1), Targets(app, f, i + 1);
      if m.typeOnly || m.target.None? {
        continue;
      }
      if m.target.value !in app.client {
        assert targets + ([m.target.value] + moreTargets) == targets + [m.target.value] + moreTargets;
        targets := targets + [m.target.value];
        continue;
      }
      var names := InspectNames(app, f, i, m.names);
      assert found + (names + moreFound) == found + names + moreFound;
      found := found + names;
    }
  }

  lemma RootIsReachable(app: App, f: Path)
    requires IsRoot(app, f)
    ensures Reachable(app, f)
  {
    assert IsWalk(app, [f]);
  }

  lemma EdgeIsReachable(app: App, f: Path, g: Path)
    requires Reachable(app, f) && Edge(app, f, g)
    ensures Reachable(app, g)
  {
    var path :| IsWalk(app, path) && path[|path| - 1] == f;
    assert IsWalk(app, path + [g]);
  }

  /** A set with the roots and all their successors holds everything reachable. */
  lemma {:induction false} ClosedHoldsWalk(app: App, closed: set<Path>, path: seq<Path>)
    requires forall f :: IsRoot(app, f) ==> f in closed
    requires forall f, g :: f in closed && Edge(app, f, g) ==> g in closed
    requires IsWalk(app, path)
    ensures path[|path| - 1] in closed
    decreases |path|
  {
    if |path| > 1 {
      var shorter := path[..|path| - 1];
      assert forall i :: 0 <= i < |shorter| ==> shorter[i] == path[i];
      ClosedHoldsWalk(app, closed, shorter);
      assert Edge(app, path[|path| - 2], path[|path| - 1]);
    }
  }

  method ServerRoutes(app: App) returns (queue: seq<Path>)
    ensures forall f :: f in queue <==> IsRoot(app, f)
  {
    queue := [];
    for i := 0 to |app.routes|
      invariant forall f :: f in queue <==> f in app.routes[..i] && f !in app.client
    {
      assert app.routes[..i + 1] == app.routes[..i] + [app.routes[i]];
      if app.routes[i] !in app.client {
        queue := queue + [app.routes[i]];
      }
    }
  }

  /** What the loop of the walk keeps: `order` lists the files of `seen` as they were inspected. */
  ghost predicate IsProgress(app: App, queue: seq<Path>, seen: set<Path>, order: seq<Path>) {
    && (forall f :: f in queue || f in seen ==> f in app.imports && Reachable(app, f))
    && (forall f :: IsRoot(app, f) ==> f in queue || f in seen)
    && (forall f, g :: f in seen && Edge(app, f, g) ==> g in queue || g in seen)
    && (forall f :: f in order <==> f in seen)
    && (forall i, j :: 0 <= i < j < |order| ==> order[i] != order[j])
  }

  lemma StartIsProgress(app: App, queue: seq<Path>)
    requires IsApp(app) && forall f :: f in queue <==> IsRoot(app, f)
    ensures IsProgress(app, queue, {}, [])
  {
    forall f | f in queue
      ensures Reachable(app, f)
    {
      RootIsReachable(app, f);
    }
  }

  lemma SkipKeepsProgress(app: App, queue: seq<Path>, seen: set<Path>, order: seq<Path>)
    requires queue != [] && IsProgress(app, queue, seen, order) && queue[|queue| - 1] in seen
    ensures IsProgress(app, queue[..|queue| - 1], seen, order)
  {
  }

  lemma VisitKeepsProgress(app: App, queue: seq<Path>, seen: set<Path>, order: seq<Path>, targets: seq<Path>)
    requires IsApp(app) && queue != [] && IsProgress(app, queue, seen, order) && queue[|queue| - 1] !in seen
    requires forall g :: g in targets <==> Edge(app, queue[|queue| - 1], g)
    ensures
      var file := queue[|queue| - 1];
      IsProgress(app, queue[..|queue| - 1] + targets, seen + {file}, order + [file])
  {
    var rest, file := queue[..|queue| - 1], queue[|queue| - 1];
    assert queue == rest + [file];
    forall g | g in targets
      ensures g in app.imports && Reachable(app, g)
    {
      EdgeIsReachable(app, file, g);
    }
  }

  lemma EndIsVisitOrder(app: App, seen: set<Path>, order: seq<Path>)
    requires IsProgress(app, [], seen, order)
    ensures IsVisitOrder(app, order)
  {
    forall f | Reachable(app, f)
      ensures f in seen
    {
      var path :| IsWalk(app, path) && path[|path| - 1] == f;
      ClosedHoldsWalk(app, seen, path);
    }
  }

  lemma VisitAddsFindings(app: App, order: seq<Path>, f: Path)
    requires (forall g :: g in order ==> g in app.imports) && f in app.imports
    ensures AllFindings(app, order + [f]) == AllFindings(app, order) + FileFindings(app, f, 0)
  {
  }

  /** The walk ends, and reports exactly the findings of the reachable server modules, file by file. */
  method CheckApp(app: App) returns (findings: seq<Finding>)
    requires IsApp(app)
    ensures exists order :: IsVisitOrder(app, order) && findings == AllFindings(app, order)
  {
    hide Reachable, Edge, IsRoot;
    var queue := ServerRoutes(app);
    var seen := {};
    findings := [];
    ghost var order: seq<Path> := [];
    StartIsProgress(app, queue);
    while queue != []
      invariant IsProgress(app, queue, seen, order)
      invariant findings == AllFindings(app, order)
      decreases app.imports.Keys - seen, |queue|
    {
      var file := queue[|queue| - 1];
      assert file in queue;
      if file in seen {
        SkipKeepsProgress(app, queue, seen, order);
        queue := queue[..|queue| - 1];
        continue;
      }
      var found, targets := Inspect(app, file);
      TargetsAreEdges(app, file);
      VisitKeepsProgress(app, queue, seen, order, targets);
      VisitAddsFindings(app, order, file);
      queue := queue[..|queue| - 1] + targets;
      seen := seen + {file};
      findings := findings + found;
      order := order + [file];
    }
    EndIsVisitOrder(app, seen, order);
  }

  lemma {:induction false} InAllFindings(app: App, order: seq<Path>, x: Finding)
    requires forall f :: f in order ==> f in app.imports
    ensures x in AllFindings(app, order) <==> exists f :: f in order && x in FileFindings(app, f, 0)
    decreases |order|
  {
    if order != [] {
      var rest, last := order[..|order| - 1], order[|order| - 1];
      assert order == rest + [last];
      assert last in order && forall f :: f in order <==> f in rest || f == last;
      InAllFindings(app, rest, x);
      assert x in AllFindings(app, order) <==> x in AllFindings(app, rest) || x in FileFindings(app, last, 0);
    }
  }

  lemma {:induction false} InNamesUsed(app: App, f: Path, statement: nat, names: seq<string>, x: Finding)
    ensures x in NamesUsed(app, f, statement, names) <==>
      x.file == f && x.statement == statement && x.name in names && x in app.used
    decreases |names|
  {
    if names != [] {
      InNamesUsed(app, f, statement, names[1..], x);
      assert names == [names[0]] + names[1..];
    }
  }

  lemma {:induction false} InFileFindings(app: App, f: Path, i: nat, x: Finding)
    requires f in app.imports && i <= |app.imports[f]|
    ensures x in FileFindings(app, f, i) <==>
      && x.file == f && i <= x.statement < |app.imports[f]| && x in app.used
      && Inspected(app, app.imports[f][x.statement]) && x.name in app.imports[f][x.statement].names
    decreases |app.imports[f]| - i
  {
    if i < |app.imports[f]| {
      InFileFindings(app, f, i + 1, x);
      InNamesUsed(app, f, i, app.imports[f][i].names, x);
    }
  }

  /** A finding is reported if and only if it is a used name of an import of a client module in a
      server module that a route file reaches. */
  lemma FindingsAreExact(app: App, order: seq<Path>, x: Finding)
    requires IsApp(app) && IsVisitOrder(app, order)
    ensures x in AllFindings(app, order) <==>
      && Reachable(app, x.file) && x.file in app.imports && x.statement < |app.imports[x.file]|
      && !app.imports[x.file][x.statement].typeOnly
      && app.imports[x.file][x.statement].target.Some? && app.imports[x.file][x.statement].target.value in app.client
      && x.name in app.imports[x.file][x.statement].names && x in app.used
  {
    hide Reachable;
    InAllFindings(app, order, x);
    forall f | f in order
      ensures x in FileFindings(app, f, 0) ==> x.file == f
    {
      InFileFindings(app, f, 0, x);
    }
    if x.file in order {
      InFileFindings(app, x.file, 0, x);
    }
  }

  // ----- which modules are inspected

  /** A module is inspected if and only if it is a route file, or an inspected module imports it with
      other than a type-only import, and it is no client module in either case. */
  lemma InspectedModulesIff(app: App, order: seq<Path>, f: Path)
    requires IsApp(app) && IsVisitOrder(app, order)
    ensures f in order <==>
      && f !in app.client
      && (f in app.routes
          || exists g, m :: g in order && m in app.imports[g] && !m.typeOnly && m.target == Some(f))
  {
    if f in order && f !in app.routes {
      var path :| IsWalk(app, path) && path[|path| - 1] == f;
      var shorter := path[..|path| - 1];
      assert forall i :: 0 <= i < |shorter| ==> shorter[i] == path[i];
      assert IsWalk(app, shorter) && Edge(app, path[|path| - 2], path[|path| - 1]);
    } else if f in order {
      InspectedIsNoClient(app, f);
    } else if f !in app.client && f in app.routes {
      RootIsReachable(app, f);
    } else if f !in app.client {
      forall g, m | g in order && m in app.imports[g] && !m.typeOnly
        ensures m.target != Some(f)
      {
        if m.target == Some(f) {
          EdgeIsReachable(app, g, f);
        }
      }
    }
  }

  lemma InspectedIsNoClient(app: App, f: Path)
    requires Reachable(app, f)
    ensures f !in app.client
  {
    var path :| IsWalk(app, path) && path[|path| - 1] == f;
    if |path| > 1 {
      assert Edge(app, path[|path| - 2], path[|path| - 1]);
    }
  }

  // ----- how often a finding is reported

  lemma {:induction false} CountNamesUsed(app: App, f: Path, statement: nat, names: seq<string>, x: Finding)
    ensures multiset(NamesUsed(app, f, statement, names))[x]
         == if x.file == f && x.statement == statement && x in app.used then multiset(names)[x.name] else 0
    decreases |names|
  {
    if names != [] {
      CountNamesUsed(app, f, statement, names[1..], x);
      assert names == [names[0]] + names[1..];
    }
  }

  /** How often the imports of `f` from the `i`-th on list the name of the finding. */
  function Listings(app: App, f: Path, i: nat, x: Finding): nat
    requires f in app.imports
  {
    if x.file == f && i <= x.statement < |app.imports[f]| && x in app.used
       && Inspected(app, app.imports[f][x.statement])
    then multiset(app.imports[f][x.statement].names)[x.name] else 0
  }

  lemma CountOfBoth<T>(a: seq<T>, b: seq<T>, x: T)
    ensures multiset(a + b)[x] == multiset(a)[x] + multiset(b)[x]
  {
  }

  lemma CountStatement(app: App, f: Path, i: nat, x: Finding)
    requires f in app.imports && i < |app.imports[f]|
    ensures
      var m := app.imports[f][i];
      var first := if Inspected(app, m) then NamesUsed(app, f, i, m.names) else [];
      multiset(first)[x] + Listings(app, f, i + 1, x) == Listings(app, f, i, x)
  {
    CountNamesUsed(app, f, i, app.imports[f][i].names, x);
  }

  lemma {:induction false} CountFileFindings(app: App, f: Path, i: nat, x: Finding)
    requires f in app.imports && i <= |app.imports[f]|
    ensures multiset(FileFindings(app, f, i))[x] == Listings(app, f, i, x)
    decreases |app.imports[f]| - i
  {
    hide NamesUsed, Inspected;
    if i < |app.imports[f]| {
      var m := app.imports[f][i];
      var first := if Inspected(app, m) then NamesUsed(app, f, i, m.names) else [];
      CountStatement(app, f, i, x);
      CountFileFindings(app, f, i + 1, x);
      CountOfBoth(first, FileFindings(app, f, i + 1), x);
    }
  }

  lemma {:induction false} CountAllFindings(app: App, order: seq<Path>, x: Finding)
    requires forall f :: f in order ==> f in app.imports
    requires forall i, j :: 0 <= i < j < |order| ==> order[i] != order[j]
    ensures multiset(AllFindings(app, order))[x]
         == if x.file in order then multiset(FileFindings(app, x.file, 0))[x] else 0
    decreases |order|
  {
    if order != [] {
      var rest, last := order[..|order| - 1], order[|order| - 1];
      assert order == rest + [last];
      CountAllFindings(app, rest, x);
      CountFileFindings(app, last, 0, x);
    }
  }

  /** A finding is reported exactly as often as its import lists the name: no file is inspected twice. */
  lemma FindingsAreCounted(app: App, order: seq<Path>, x: Finding)
    requires IsApp(app) && IsVisitOrder(app, order) && x in AllFindings(app, order)
    ensures x.file in app.imports && x.statement < |app.imports[x.file]|
    ensures multiset(AllFindings(app, order))[x] == multiset(app.imports[x.file][x.statement].names)[x.name]
  {
    hide Reachable;
    FindingsAreExact(app, order, x);
    CountAllFindings(app, order, x);
    CountFileFindings(app, x.file, 0, x);
  }

  predicate NoneTwice<T(==)>(s: seq<T>) {
    forall i, j :: 0 <= i < j < |s| ==> s[i] != s[j]
  }

  lemma CountOfDistinct<T>(s: seq<T>, x: T)
    requires NoneTwice(s)
    ensures multiset(s)[x] <= 1
  {
    if i :| 0 <= i < |s| && s[i] == x {
      assert s == s[..i] + [x] + s[i + 1..];
      assert x !in s[..i] && x !in s[i + 1..];
    }
  }

  lemma DistinctIfCounted<T>(s: seq<T>)
    requires forall x :: x in s ==> multiset(s)[x] <= 1
    ensures NoneTwice(s)
  {
    forall i, j | 0 <= i < j < |s|
      ensures s[i] != s[j]
    {
      assert s == s[..j] + s[j..];
      assert multiset(s) == multiset(s[..j]) + multiset(s[j..]);
      assert s[i] in s && s[i] in s[..j] && s[j] in s[j..];
      assert multiset(s)[s[i]] == multiset(s[..j])[s[i]] + multiset(s[j..])[s[i]];
      assert multiset(s[..j])[s[i]] > 0 && multiset(s[j..])[s[j]] > 0;
    }
  }

  /** When every import lists a name once, no finding is reported twice. */
  lemma FindingsAreNotRepeated(app: App, order: seq<Path>)
    requires IsApp(app) && IsVisitOrder(app, order)
    requires forall f :: f in app.imports ==> forall m :: m in app.imports[f] ==> NoneTwice(m.names)
    ensures NoneTwice(AllFindings(app, order))
  {
    hide NoneTwice;
    forall x | x in AllFindings(app, order)
      ensures multiset(AllFindings(app, order))[x] <= 1
    {
      FindingsAreCounted(app, order, x);
      CountOfDistinct(app.imports[x.file][x.statement].names, x.name);
    }
    DistinctIfCounted(AllFindings(app, order));
  }
}
