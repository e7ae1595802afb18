/** Selecting tests by path, kind and PICS (`TestDescriptor.filter` in packages/testing/src/test-descriptor.ts). */
module TestFilter {
  import opened Options
  import opened TestDescriptors
  import opened Paths

  // ---- The index of inclusion paths ----------------------------------------------------------------------------

  datatype NameNode = NameNode(kids: map<string, NameNode>)

  const EMPTY := NameNode(map[])

  function Insert(node: NameNode, path: seq<string>): NameNode
    decreases path
  {
    if path == [] then node
    else
      var kid := if path[0] in node.kids then node.kids[path[0]] else EMPTY;
      NameNode(node.kids[path[0] := Insert(kid, path[1..])])
  }

  predicate Contains(node: NameNode, path: seq<string>)
    decreases path
  {
    path == [] || (path[0] in node.kids && Contains(node.kids[path[0]], path[1..]))
  }

  lemma {:induction false} ContainsInserted(node: NameNode, path: seq<string>, query: seq<string>)
    ensures Contains(Insert(node, path), query) <==> Contains(node, query) || query <= path
    decreases path
  {
    if path != [] && query != [] && query[0] == path[0] {
      var kid := if path[0] in node.kids then node.kids[path[0]] else EMPTY;
      ContainsInserted(kid, path[1..], query[1..]);
      assert query <= path <==> query[1..] <= path[1..] by {
        assert query == [query[0]] + query[1..] && path == [path[0]] + path[1..];
      }
      assert path[0] !in node.kids ==> (Contains(kid, query[1..]) <==> query[1..] == []);
      if query[1..] == [] {
        assert query <= path;
      }
    }
  }

  /** The segments of an inclusion path; one that starts with "/" starts at the root. */
  function Segments(path: string, root: string): (segments: seq<string>)
    ensures segments != []
  {
    var segments := Split(path);
    if segments[0] == "" then segments[0 := root] else segments
  }

  /**
   The segments make up the path again, with the name of the root in front of a path that starts with "/" or is empty;
   and no segment holds a "/".
   */
  lemma SegmentsAre(path: string, root: string)
    ensures Join(Segments(path, root)) == if path == "" || path[0] == '/' then root + path else path
    ensures Plain(root) ==> AllPlain(Segments(path, root))
  {
    SplitIsPlain(path);
    JoinSplit(path);
    var segments := Split(path);
    if segments[0] == "" {
      assert path == "" || path[0] == '/';
      if |segments| > 1 {
        assert segments[0 := root][1..] == segments[1..];
        assert path == "/" + Join(segments[1..]);
      } else {
        assert segments == [""];
      }
    }
  }

  function IndexPaths(paths: seq<string>, root: string): NameNode {
    if paths == [] then EMPTY
    else Insert(IndexPaths(paths[..|paths| - 1], root), Segments(paths[|paths| - 1], root))
  }

  predicate Includes(paths: seq<string>, root: string, path: seq<string>) {
    exists i :: 0 <= i < |paths| && path <= Segments(paths[i], root)
  }

  /** The index finds exactly the prefixes of the inclusion paths. */
  lemma {:induction false} IndexIncludes(paths: seq<string>, root: string, path: seq<string>)
    requires path != []
    ensures Contains(IndexPaths(paths, root), path) <==> Includes(paths, root, path)
  {
    if paths != [] {
      var before, last := paths[..|paths| - 1], paths[|paths| - 1];
      IndexIncludes(before, root, path);
      ContainsInserted(IndexPaths(before, root), Segments(last, root), path);
      IncludesSnoc(before, last, root, path);
      assert paths == before + [last];
    }
  }

  lemma IncludesSnoc(before: seq<string>, last: string, root: string, path: seq<string>)
    ensures Includes(before + [last], root, path) <==> Includes(before, root, path) || path <= Segments(last, root)
  {
    var paths := before + [last];
    if Includes(before, root, path) {
      var i :| 0 <= i < |before| && path <= Segments(before[i], root);
      assert path <= Segments(paths[i], root);
    }
    if path <= Segments(last, root) {
      assert path <= Segments(paths[|before|], root);
    }
  }

  // ---- The filter ----------------------------------------------------------------------------------------------

  datatype Criteria = Criteria(
    includePaths: Option<seq<string>>,
    kinds: Option<set<Kind>>,
    pics: Option<string -> bool>,
    accepts: Option<Descriptor -> bool>)

  predicate PicsPass(c: Criteria, expression: string) { c.pics.Some? ==> c.pics.value(expression) }

  predicate NodePasses(c: Criteria, d: Descriptor) { d.pics.Some? ==> PicsPass(c, d.pics.value) }

  predicate KindAllowed(c: Criteria, kind: Kind) { c.kinds.Some? ==> kind in c.kinds.value }

  predicate Accepts(c: Criteria, d: Descriptor) { c.accepts.Some? ==> c.accepts.value(d) }

  /** The names that the criteria look for from the root on. */
  function NamesFor(c: Criteria, root: string): Option<NameNode> {
    if c.includePaths.Some? then Some(IndexPaths(c.includePaths.value, root)) else None
  }

  function Filter(d: Descriptor, c: Criteria): Option<Descriptor> {
    FilterNode(d, NamesFor(c, d.name), c)
  }

  predicate Named(names: Option<NameNode>, name: string) { names.Some? ==> name in names.value.kids }

  function Below(names: Option<NameNode>, name: string): Option<NameNode>
    requires Named(names, name)
  {
    if names.Some? then Some(names.value.kids[name]) else None
  }

  function FilterNode(d: Descriptor, names: Option<NameNode>, c: Criteria): Option<Descriptor>
    decreases d, 1
  {
    if !Named(names, d.name) then None
    else if !NodePasses(c, d) then None
    else if d.kind.Suite? then
      if d.members.Absent? then None
      else
        var kept := FilterMembers(d.members.list, Below(names, d.name), c);
        if kept == [] then None else Some(d.(members := Present(kept)))
    else if !KindAllowed(c, d.kind) then None
    else Some(d)
  }

  function KeptMember(r: Option<Descriptor>, c: Criteria): seq<Descriptor> {
    if r.Some? && Accepts(c, r.value) then [r.value] else []
  }

  function FilterMembers(members: seq<Descriptor>, names: Option<NameNode>, c: Criteria): seq<Descriptor>
    decreases members, 0
  {
    if members == [] then []
    else KeptMember(FilterNode(members[0], names, c), c) + FilterMembers(members[1..], names, c)
  }

  // ---- What the filter is for ----------------------------------------------------------------------------------

  /** A test with the names and the PICS expressions of all nodes from the root down to it. */
  datatype Test = Test(path: seq<string>, pics: seq<string>, test: Descriptor)

  function PicsOf(d: Descriptor): seq<string> { if d.pics.Some? then [d.pics.value] else [] }

  /** The tests of a tree in order; a test is atomic, whatever members it has. */
  function Tests(d: Descriptor): seq<Test>
    decreases d, 1
  {
    if d.kind.Suite? then
      if d.members.Absent? then [] else Under(d.name, PicsOf(d), TestsOf(d.members.list))
    else [Test([d.name], PicsOf(d), d)]
  }

  function TestsOf(members: seq<Descriptor>): seq<Test>
    decreases members, 0
  {
    if members == [] then [] else Tests(members[0]) + TestsOf(members[1..])
  }

  function Under(name: string, pics: seq<string>, tests: seq<Test>): seq<Test> {
    if tests == [] then []
    else [Test([name] + tests[0].path, pics + tests[0].pics, tests[0].test)] + Under(name, pics, tests[1..])
  }

  /** The values of every PICS expression allow the test. */
  predicate AllPass(c: Criteria, pics: seq<string>) {
    c.pics.Some? ==> forall i :: 0 <= i < |pics| ==> c.pics.value(pics[i])
  }

  predicate KindWanted(c: Criteria, t: Test) { c.kinds.Some? ==> t.test.kind in c.kinds.value }

  predicate Wanted(c: Criteria, names: Option<NameNode>, t: Test) {
    (names.Some? ==> Contains(names.value, t.path)) && KindWanted(c, t) && AllPass(c, t.pics)
  }

  function Select(tests: seq<Test>, c: Criteria, names: Option<NameNode>): seq<Test> {
    if tests == [] then []
    else (if Wanted(c, names, tests[0]) then [tests[0]] else []) + Select(tests[1..], c, names)
  }

  lemma {:induction false} SelectAppend(a: seq<Test>, b: seq<Test>, c: Criteria, names: Option<NameNode>)
    ensures Select(a + b, c, names) == Select(a, c, names) + Select(b, c, names)
  {
    if a == [] {
      assert a + b == b;
    } else {
      assert (a + b)[1..] == a[1..] + b;
      SelectAppend(a[1..], b, c, names);
    }
  }

  lemma WantedUnder(d: Descriptor, c: Criteria, names: Option<NameNode>, t: Test)
    ensures Wanted(c, names, Test([d.name] + t.path, PicsOf(d) + t.pics, t.test)) <==>
            Named(names, d.name) && NodePasses(c, d) && Wanted(c, Below(names, d.name), t)
  {
    var t' := Test([d.name] + t.path, PicsOf(d) + t.pics, t.test);
    assert t'.path[0] == d.name && t'.path[1..] == t.path;
    assert AllPass(c, t'.pics) <==> NodePasses(c, d) && AllPass(c, t.pics) by {
      if d.pics.Some? {
        assert t'.pics[0] == d.pics.value && t'.pics[1..] == t.pics;
        assert forall i :: 0 <= i < |t.pics| ==> t'.pics[i + 1] == t.pics[i];
      } else {
        assert t'.pics == t.pics;
      }
    }
  }

  lemma {:induction false} SelectUnder(d: Descriptor, tests: seq<Test>, c: Criteria, names: Option<NameNode>)
    ensures Select(Under(d.name, PicsOf(d), tests), c, names) ==
            if Named(names, d.name) && NodePasses(c, d)
            then Under(d.name, PicsOf(d), Select(tests, c, Below(names, d.name))) else []
  {
    if tests != [] {
      WantedUnder(d, c, names, tests[0]);
      SelectUnder(d, tests[1..], c, names);
      var under := Under(d.name, PicsOf(d), tests);
      assert under[1..] == Under(d.name, PicsOf(d), tests[1..]);
      if Named(names, d.name) {
        var rest := Select(tests[1..], c, Below(names, d.name));
        assert ([tests[0]] + rest)[1..] == rest;
        assert [] + rest == rest;
      }
    }
  }

  function TestsIn(d: Option<Descriptor>): seq<Test> { if d.Some? then Tests(d.value) else [] }

  /** The predicate, if there is one, accepts every suite. */
  ghost predicate SuitesAccepted(c: Criteria) {
    c.accepts.Some? ==> forall d: Descriptor :: d.kind.Suite? ==> c.accepts.value(d)
  }

  /** The tests that the predicate, if there is one, accepts. */
  function Asked(tests: seq<Test>, c: Criteria): seq<Test> {
    if tests == [] then []
    else (if c.accepts.Some? ==> c.accepts.value(tests[0].test) then [tests[0]] else []) + Asked(tests[1..], c)
  }

  lemma {:induction false} AskedAppend(a: seq<Test>, b: seq<Test>, c: Criteria)
    ensures Asked(a + b, c) == Asked(a, c) + Asked(b, c)
  {
    if a == [] {
      assert a + b == b;
    } else {
      assert (a + b)[1..] == a[1..] + b;
      AskedAppend(a[1..], b, c);
    }
  }

  lemma {:induction false} AskedUnder(name: string, pics: seq<string>, tests: seq<Test>, c: Criteria)
    ensures Asked(Under(name, pics, tests), c) == Under(name, pics, Asked(tests, c))
  {
    if tests != [] {
      AskedUnder(name, pics, tests[1..], c);
      var rest := Asked(tests[1..], c);
      assert ([tests[0]] + rest)[1..] == rest && [] + rest == rest;
    }
  }

  /** A suite keeps the wanted tests that are accepted; a test itself is not asked about here. */
  lemma {:induction false} NodeSelects(d: Descriptor, names: Option<NameNode>, c: Criteria)
    requires SuitesAccepted(c)
    ensures TestsIn(FilterNode(d, names, c)) ==
            if d.kind.Suite? then Asked(Select(Tests(d), c, names), c) else Select(Tests(d), c, names)
    decreases d, 1
  {
    if d.kind.Suite? {
      if d.members.Present? {
        SelectUnder(d, TestsOf(d.members.list), c, names);
        if Named(names, d.name) && NodePasses(c, d) {
          MembersSelect(d.members.list, Below(names, d.name), c);
          AskedUnder(d.name, PicsOf(d), Select(TestsOf(d.members.list), c, Below(names, d.name)), c);
        }
      }
    } else {
      var t := Test([d.name], PicsOf(d), d);
      assert Tests(d)[1..] == [];
      WantedUnder(d, c, names, Test([], [], d));
      assert [d.name] + [] == [d.name] && PicsOf(d) + [] == PicsOf(d);
    }
  }

  /** The tests of a member that is kept, or none. */
  lemma MemberSelects(d: Descriptor, names: Option<NameNode>, c: Criteria)
    requires SuitesAccepted(c)
    requires TestsIn(FilterNode(d, names, c)) ==
             if d.kind.Suite? then Asked(Select(Tests(d), c, names), c) else Select(Tests(d), c, names)
    ensures TestsOf(KeptMember(FilterNode(d, names, c), c)) == Asked(Select(Tests(d), c, names), c)
  {
    var r, kept := FilterNode(d, names, c), KeptMember(FilterNode(d, names, c), c);
    if kept != [] {
      assert kept[1..] == [];
    }
    if !d.kind.Suite? && r.Some? {
      assert r.value == d && Tests(d)[1..] == [];
      var selected := Select(Tests(d), c, names);
      assert selected == [Test([d.name], PicsOf(d), d)] && selected[1..] == [];
    }
  }

  lemma {:induction false} TestsAppend(a: seq<Descriptor>, b: seq<Descriptor>)
    ensures TestsOf(a + b) == TestsOf(a) + TestsOf(b)
  {
    if a == [] {
      assert a + b == b;
    } else {
      assert (a + b)[1..] == a[1..] + b;
      TestsAppend(a[1..], b);
    }
  }

  lemma {:induction false} MembersSelect(members: seq<Descriptor>, names: Option<NameNode>, c: Criteria)
    requires SuitesAccepted(c)
    ensures TestsOf(FilterMembers(members, names, c)) == Asked(Select(TestsOf(members), c, names), c)
    decreases members, 0
  {
    if members != [] {
      var first, rest := members[0], members[1..];
      NodeSelects(first, names, c);
      MemberSelects(first, names, c);
      MembersSelect(rest, names, c);
      SelectAppend(Tests(first), TestsOf(rest), c, names);
      AskedAppend(Select(Tests(first), c, names), Select(TestsOf(rest), c, names), c);
      TestsAppend(KeptMember(FilterNode(first, names, c), c), FilterMembers(rest, names, c));
    }
  }

  /** A test is wanted when its path leads towards an inclusion path, its kind is allowed and all PICS pass. */
  predicate Selected(c: Criteria, root: string, t: Test) {
    && (c.includePaths.Some? ==> Includes(c.includePaths.value, root, t.path))
    && KindWanted(c, t)
    && AllPass(c, t.pics)
  }

  function Kept(tests: seq<Test>, c: Criteria, root: string): seq<Test> {
    if tests == [] then []
    else (if Selected(c, root, tests[0]) then [tests[0]] else []) + Kept(tests[1..], c, root)
  }

  lemma {:induction false} SelectIsKept(tests: seq<Test>, c: Criteria, root: string, names: Option<NameNode>)
    requires names == NamesFor(c, root)
    requires forall i :: 0 <= i < |tests| ==> tests[i].path != []
    ensures Select(tests, c, names) == Kept(tests, c, root)
  {
    if tests != [] {
      if c.includePaths.Some? {
        IndexIncludes(c.includePaths.value, root, tests[0].path);
      }
      SelectIsKept(tests[1..], c, root, names);
    }
  }

  lemma {:induction false} TestsHavePaths(d: Descriptor)
    ensures forall i :: 0 <= i < |Tests(d)| ==> Tests(d)[i].path != []
  {
    if d.kind.Suite? && d.members.Present? {
      UnderHasPaths(d.name, PicsOf(d), TestsOf(d.members.list));
    }
  }

  lemma {:induction false} UnderHasPaths(name: string, pics: seq<string>, tests: seq<Test>)
    ensures forall i :: 0 <= i < |Under(name, pics, tests)| ==> Under(name, pics, tests)[i].path != []
  {
    if tests != [] {
      UnderHasPaths(name, pics, tests[1..]);
    }
  }

  /** No suite of the tree, at any depth, is without members. */
  predicate NoEmptySuite(d: Descriptor)
    decreases d
  {
    d.kind.Suite? ==>
      d.members.Present? && d.members.list != [] &&
      forall i :: 0 <= i < |d.members.list| ==> NoEmptySuite(d.members.list[i])
  }

  lemma {:induction false} FilteredHasNoEmptySuite(d: Descriptor, names: Option<NameNode>, c: Criteria)
    ensures var r := FilterNode(d, names, c); r.Some? ==> NoEmptySuite(r.value)
    decreases d, 1
  {
    var r := FilterNode(d, names, c);
    if d.kind.Suite? && r.Some? {
      FilteredMembersHaveNoEmptySuite(d.members.list, Below(names, d.name), c);
      assert r.value.members.list == FilterMembers(d.members.list, Below(names, d.name), c);
    }
  }

  predicate NoneEmpty(members: seq<Descriptor>) { forall i :: 0 <= i < |members| ==> NoEmptySuite(members[i]) }

  lemma {:induction false} FilteredMembersHaveNoEmptySuite(members: seq<Descriptor>, names: Option<NameNode>,
                                                           c: Criteria)
    ensures NoneEmpty(FilterMembers(members, names, c))
    decreases members, 0
  {
    if members != [] {
      FilteredHasNoEmptySuite(members[0], names, c);
      FilteredMembersHaveNoEmptySuite(members[1..], names, c);
    }
  }

  /** What the filter is to keep of a tree: the selected tests, and of a suite those the predicate accepts. */
  function ToKeep(d: Descriptor, c: Criteria): seq<Test> {
    var kept := Kept(Tests(d), c, d.name);
    if d.kind.Suite? then Asked(kept, c) else kept
  }

  /**
   The filter keeps exactly the wanted tests, in order and with their paths, leaves no suite empty, and yields nothing
   only when nothing is wanted.  A predicate that accepts every suite decides about the tests below the root.
   */
  lemma FilterKeepsExactly(d: Descriptor, c: Criteria)
    requires SuitesAccepted(c)
    ensures var r := Filter(d, c);
            && TestsIn(r) == ToKeep(d, c)
            && (r.Some? ==> NoEmptySuite(r.value) && r.value.name == d.name)
            && (r.None? <==> ToKeep(d, c) == [])
  {
    var names := NamesFor(c, d.name);
    NodeSelects(d, names, c);
    TestsHavePaths(d);
    SelectIsKept(Tests(d), c, d.name, names);
    FilteredHasNoEmptySuite(d, names, c);
    if Filter(d, c).Some? {
      NonEmptyHasTests(Filter(d, c).value);
    }
  }

  lemma {:induction false} NonEmptyHasTests(d: Descriptor)
    requires NoEmptySuite(d)
    ensures Tests(d) != []
    decreases d
  {
    if d.kind.Suite? {
      NonEmptyHasTests(d.members.list[0]);
      assert TestsOf(d.members.list) != [];
    }
  }

  // ---- Any predicate -------------------------------------------------------------------------------------------

  /** A test with the nodes from the top of the tree down to it, itself the last. */
  datatype Trail = Trail(test: Test, nodes: seq<Descriptor>)

  function Trails(d: Descriptor): seq<Trail>
    decreases d, 1
  {
    if d.kind.Suite? then
      if d.members.Absent? then [] else Extended(d, TrailsOf(d.members.list))
    else [Trail(Test([d.name], PicsOf(d), d), [d])]
  }

  function TrailsOf(members: seq<Descriptor>): seq<Trail>
    decreases members, 0
  {
    if members == [] then [] else Trails(members[0]) + TrailsOf(members[1..])
  }

  function Within(d: Descriptor, t: Trail): Trail {
    Trail(Test([d.name] + t.test.path, PicsOf(d) + t.test.pics, t.test.test), [d] + t.nodes)
  }

  function Extended(d: Descriptor, trails: seq<Trail>): seq<Trail> {
    if trails == [] then [] else [Within(d, trails[0])] + Extended(d, trails[1..])
  }

  function TestsOn(trails: seq<Trail>): seq<Test> {
    if trails == [] then [] else [trails[0].test] + TestsOn(trails[1..])
  }

  lemma {:induction false} TestsOnAppend(a: seq<Trail>, b: seq<Trail>)
    ensures TestsOn(a + b) == TestsOn(a) + TestsOn(b)
  {
    if a == [] {
      assert a + b == b;
    } else {
      assert (a + b)[1..] == a[1..] + b;
      TestsOnAppend(a[1..], b);
    }
  }

  lemma {:induction false} TestsOnExtended(d: Descriptor, trails: seq<Trail>)
    ensures TestsOn(Extended(d, trails)) == Under(d.name, PicsOf(d), TestsOn(trails))
  {
    if trails != [] {
      TestsOnExtended(d, trails[1..]);
      assert Extended(d, trails)[1..] == Extended(d, trails[1..]);
      assert TestsOn(trails)[1..] == TestsOn(trails[1..]);
    }
  }

  /** The trails lead to the tests of the tree, in order. */
  lemma {:induction false} TrailsLeadToTests(d: Descriptor)
    ensures TestsOn(Trails(d)) == Tests(d)
    decreases d, 1
  {
    if d.kind.Suite? {
      if d.members.Present? {
        MemberTrailsLeadToTests(d.members.list);
        TestsOnExtended(d, TrailsOf(d.members.list));
      }
    } else {
      assert Trails(d)[1..] == [];
    }
  }

  lemma {:induction false} MemberTrailsLeadToTests(members: seq<Descriptor>)
    ensures TestsOn(TrailsOf(members)) == TestsOf(members)
    decreases members, 0
  {
    if members != [] {
      TrailsLeadToTests(members[0]);
      MemberTrailsLeadToTests(members[1..]);
      TestsOnAppend(Trails(members[0]), TrailsOf(members[1..]));
    }
  }

  /** Each node, once filtered, is left and accepted. */
  predicate Passed(c: Criteria, names: Option<NameNode>, nodes: seq<Descriptor>)
    requires nodes != []
    decreases nodes, 1
  {
    var r := FilterNode(nodes[0], names, c);
    r.Some? && (c.accepts.Some? ==> c.accepts.value(r.value)) && PassedBelow(c, names, nodes)
  }

  /** Each node but the first, once filtered, is left and accepted. */
  predicate PassedBelow(c: Criteria, names: Option<NameNode>, nodes: seq<Descriptor>)
    requires nodes != []
    decreases nodes, 0
  {
    |nodes| > 1 ==> Named(names, nodes[0].name) && Passed(c, Below(names, nodes[0].name), nodes[1..])
  }

  predicate Rooted(trails: seq<Trail>) { forall i :: 0 <= i < |trails| ==> trails[i].nodes != [] }

  lemma {:induction false} TrailsAreRooted(d: Descriptor)
    ensures Rooted(Trails(d)) && forall i :: 0 <= i < |Trails(d)| ==> Trails(d)[i].nodes[0] == d
    decreases d, 1
  {
    if d.kind.Suite? && d.members.Present? {
      ExtendedIsRooted(d, TrailsOf(d.members.list));
    }
  }

  lemma {:induction false} ExtendedIsRooted(d: Descriptor, trails: seq<Trail>)
    ensures Rooted(Extended(d, trails))
    ensures forall i :: 0 <= i < |Extended(d, trails)| ==> Extended(d, trails)[i].nodes[0] == d
  {
    if trails != [] {
      ExtendedIsRooted(d, trails[1..]);
    }
  }

  lemma {:induction false} MemberTrailsAreRooted(members: seq<Descriptor>)
    ensures Rooted(TrailsOf(members))
  {
    if members != [] {
      TrailsAreRooted(members[0]);
      MemberTrailsAreRooted(members[1..]);
    }
  }

  /** The wanted tests whose nodes, without or with the first, pass. */
  function Survivors(trails: seq<Trail>, c: Criteria, names: Option<NameNode>, withFirst: bool): seq<Test>
    requires Rooted(trails)
  {
    if trails == [] then []
    else
      var t := trails[0];
      var passed := if withFirst then Passed(c, names, t.nodes) else PassedBelow(c, names, t.nodes);
      (if Wanted(c, names, t.test) && passed then [t.test] else []) + Survivors(trails[1..], c, names, withFirst)
  }

  lemma {:induction false} SurvivorsAppend(a: seq<Trail>, b: seq<Trail>, c: Criteria, names: Option<NameNode>)
    requires Rooted(a) && Rooted(b)
    ensures Survivors(a + b, c, names, true) == Survivors(a, c, names, true) + Survivors(b, c, names, true)
  {
    if a == [] {
      assert a + b == b;
    } else {
      assert (a + b)[1..] == a[1..] + b;
      SurvivorsAppend(a[1..], b, c, names);
    }
  }

  lemma {:induction false} SurvivorsExtended(d: Descriptor, trails: seq<Trail>, c: Criteria, names: Option<NameNode>)
    requires Rooted(trails)
    ensures Rooted(Extended(d, trails))
    ensures Survivors(Extended(d, trails), c, names, false) ==
            if Named(names, d.name) && NodePasses(c, d)
            then Under(d.name, PicsOf(d), Survivors(trails, c, Below(names, d.name), true)) else []
  {
    ExtendedIsRooted(d, trails);
    if trails != [] {
      var t := trails[0];
      WantedUnder(d, c, names, t.test);
      SurvivorsExtended(d, trails[1..], c, names);
      assert Extended(d, trails)[1..] == Extended(d, trails[1..]);
      assert Within(d, t).nodes[1..] == t.nodes;
      if Named(names, d.name) {
        var rest := Survivors(trails[1..], c, Below(names, d.name), true);
        assert ([t.test] + rest)[1..] == rest && [] + rest == rest;
      }
    }
  }

  /** All trails of a node start with it, so it decides for all of them. */
  lemma {:induction false} SurvivorsOfNode(d: Descriptor, trails: seq<Trail>, c: Criteria, names: Option<NameNode>)
    requires Rooted(trails) && forall i :: 0 <= i < |trails| ==> trails[i].nodes[0] == d
    ensures Survivors(trails, c, names, true) ==
            if KeptMember(FilterNode(d, names, c), c) != [] then Survivors(trails, c, names, false) else []
  {
    if trails != [] {
      SurvivorsOfNode(d, trails[1..], c, names);
    }
  }

  lemma {:induction false} NodeKeeps(d: Descriptor, names: Option<NameNode>, c: Criteria)
    ensures Rooted(Trails(d))
    ensures TestsIn(FilterNode(d, names, c)) == Survivors(Trails(d), c, names, false)
    decreases d, 1
  {
    TrailsAreRooted(d);
    if d.kind.Suite? {
      if d.members.Present? {
        MemberTrailsAreRooted(d.members.list);
        SurvivorsExtended(d, TrailsOf(d.members.list), c, names);
        if Named(names, d.name) && NodePasses(c, d) {
          MembersKeep(d.members.list, Below(names, d.name), c);
        }
      }
    } else {
      assert Trails(d)[1..] == [];
      WantedUnder(d, c, names, Test([], [], d));
      assert [d.name] + [] == [d.name] && PicsOf(d) + [] == PicsOf(d);
    }
  }

  lemma {:induction false} MembersKeep(members: seq<Descriptor>, names: Option<NameNode>, c: Criteria)
    ensures Rooted(TrailsOf(members))
    ensures TestsOf(FilterMembers(members, names, c)) == Survivors(TrailsOf(members), c, names, true)
    decreases members, 0
  {
    MemberTrailsAreRooted(members);
    if members != [] {
      var first, rest := members[0], members[1..];
      var kept := KeptMember(FilterNode(first, names, c), c);
      NodeKeeps(first, names, c);
      TrailsAreRooted(first);
      SurvivorsOfNode(first, Trails(first), c, names);
      MembersKeep(rest, names, c);
      SurvivorsAppend(Trails(first), TrailsOf(rest), c, names);
      TestsAppend(kept, FilterMembers(rest, names, c));
      assert kept != [] ==> kept[1..] == [];
    }
  }

  /** The selected tests all of whose nodes below the root are, once filtered, left and accepted. */
  function Surviving(trails: seq<Trail>, c: Criteria, root: string): seq<Test>
    requires Rooted(trails)
  {
    if trails == [] then []
    else
      var t := trails[0];
      (if Selected(c, root, t.test) && PassedBelow(c, NamesFor(c, root), t.nodes) then [t.test] else []) +
      Surviving(trails[1..], c, root)
  }

  lemma {:induction false} SurvivorsAreSurviving(trails: seq<Trail>, c: Criteria, root: string)
    requires Rooted(trails) && forall i :: 0 <= i < |trails| ==> trails[i].test.path != []
    ensures Survivors(trails, c, NamesFor(c, root), false) == Surviving(trails, c, root)
  {
    if trails != [] {
      if c.includePaths.Some? {
        IndexIncludes(c.includePaths.value, root, trails[0].test.path);
      }
      SurvivorsAreSurviving(trails[1..], c, root);
    }
  }

  lemma {:induction false} TestsOnAt(trails: seq<Trail>, i: nat)
    requires i < |trails|
    ensures |TestsOn(trails)| == |trails| && TestsOn(trails)[i] == trails[i].test
  {
    if |trails| > 1 {
      TestsOnAt(trails[1..], if i > 0 then i - 1 else 0);
    }
  }

  /** Whatever the predicate, a test is kept exactly when it is selected and its nodes below the root are accepted. */
  lemma FilterKeepsAccepted(d: Descriptor, c: Criteria)
    ensures Rooted(Trails(d)) && TestsOn(Trails(d)) == Tests(d)
    ensures TestsIn(Filter(d, c)) == Surviving(Trails(d), c, d.name)
  {
    NodeKeeps(d, NamesFor(c, d.name), c);
    TrailsLeadToTests(d);
    TestsHavePaths(d);
    forall i | 0 <= i < |Trails(d)| ensures Trails(d)[i].test.path != [] {
      TestsOnAt(Trails(d), i);
    }
    SurvivorsAreSurviving(Trails(d), c, d.name);
  }

  /** Every node below the root was accepted by the predicate, after its own members had been filtered. */
  predicate AllAccepted(c: Criteria, d: Descriptor)
    decreases d
  {
    d.kind.Suite? && d.members.Present? ==>
      forall i :: 0 <= i < |d.members.list| ==> Accepts(c, d.members.list[i]) && AllAccepted(c, d.members.list[i])
  }

  predicate EachAccepted(c: Criteria, members: seq<Descriptor>) {
    forall i :: 0 <= i < |members| ==> Accepts(c, members[i]) && AllAccepted(c, members[i])
  }

  lemma {:induction false} FilterAppliesPredicate(d: Descriptor, names: Option<NameNode>, c: Criteria)
    ensures FilterNode(d, names, c).Some? ==> AllAccepted(c, FilterNode(d, names, c).value)
    decreases d, 1
  {
    if d.kind.Suite? && FilterNode(d, names, c).Some? {
      MembersApplyPredicate(d.members.list, Below(names, d.name), c);
    }
  }

  lemma {:induction false} MembersApplyPredicate(members: seq<Descriptor>, names: Option<NameNode>, c: Criteria)
    ensures EachAccepted(c, FilterMembers(members, names, c))
    decreases members, 0
  {
    if members != [] {
      FilterAppliesPredicate(members[0], names, c);
      MembersApplyPredicate(members[1..], names, c);
    }
  }

  // ---- Nothing but removal -------------------------------------------------------------------------------------

  /** The first tree is the second with some members of suites removed, at any depth. */
  predicate Pruned(r: Descriptor, d: Descriptor)
    decreases d, 1
  {
    if d.kind.Suite? then
      r.members.Present? && d.members.Present? && r == d.(members := r.members) &&
      PrunedList(r.members.list, d.members.list)
    else r == d
  }

  /** The members that are left stand in their old order, each pruned. */
  predicate PrunedList(kept: seq<Descriptor>, members: seq<Descriptor>)
    decreases members, 0
  {
    if members == [] then kept == []
    else
      PrunedList(kept, members[1..]) ||
      (kept != [] && Pruned(kept[0], members[0]) && PrunedList(kept[1..], members[1..]))
  }

  lemma {:induction false} FilterOnlyRemoves(d: Descriptor, names: Option<NameNode>, c: Criteria)
    ensures FilterNode(d, names, c).Some? ==> Pruned(FilterNode(d, names, c).value, d)
    decreases d, 1
  {
    if d.kind.Suite? && FilterNode(d, names, c).Some? {
      MembersOnlyRemoved(d.members.list, Below(names, d.name), c);
    }
  }

  lemma {:induction false} MembersOnlyRemoved(members: seq<Descriptor>, names: Option<NameNode>, c: Criteria)
    ensures PrunedList(FilterMembers(members, names, c), members)
    decreases members, 0
  {
    if members != [] {
      FilterOnlyRemoves(members[0], names, c);
      MembersOnlyRemoved(members[1..], names, c);
      var rest := FilterMembers(members[1..], names, c);
      var kept := KeptMember(FilterNode(members[0], names, c), c);
      if kept == [] {
        assert kept + rest == rest;
      } else {
        assert (kept + rest)[1..] == rest;
      }
    }
  }

  // ---- The loops -----------------------------------------------------------------------------------------------

  method BuildIndex(paths: seq<string>, root: string) returns (index: NameNode)
    ensures index == IndexPaths(paths, root)
  {
    index := EMPTY;
    for i := 0 to |paths|
      invariant index == IndexPaths(paths[..i], root)
    {
      var segments := Split(paths[i]);
      if segments[0] == "" {
        segments := segments[0 := root];
      }
      index := Insert(index, segments);
      assert paths[..i + 1][..i] == paths[..i];
    }
    assert paths[..|paths|] == paths;
  }

  method FilterTree(d: Descriptor, c: Criteria) returns (r: Option<Descriptor>)
    ensures r == Filter(d, c)
    ensures SuitesAccepted(c) ==> TestsIn(r) == ToKeep(d, c)
    ensures Rooted(Trails(d)) && TestsIn(r) == Surviving(Trails(d), c, d.name)
    ensures r.Some? ==> NoEmptySuite(r.value) && Pruned(r.value, d)
  {
    var names := None;
    if c.includePaths.Some? {
      var index := BuildIndex(c.includePaths.value, d.name);
      names := Some(index);
    }
    r := FilterSubtree(d, names, c);
    FilterKeepsAccepted(d, c);
    FilteredHasNoEmptySuite(d, names, c);
    FilterOnlyRemoves(d, names, c);
    if SuitesAccepted(c) {
      FilterKeepsExactly(d, c);
    }
  }

  method FilterSubtree(d: Descriptor, names: Option<NameNode>, c: Criteria) returns (r: Option<Descriptor>)
    ensures r == FilterNode(d, names, c)
    decreases d, 1
  {
    if !Named(names, d.name) || !NodePasses(c, d) {
      return None;
    }
    if d.kind.Suite? {
      if d.members.Absent? {
        return None;
      }
      var kept := FilterList(d.members.list, Below(names, d.name), c);
      if kept == [] {
        return None;
      }
      return Some(d.(members := Present(kept)));
    }
    r := if KindAllowed(c, d.kind) then Some(d) else None;
  }

  lemma {:induction false} FilterSnoc(members: seq<Descriptor>, last: Descriptor, names: Option<NameNode>, c: Criteria)
    ensures FilterMembers(members + [last], names, c) ==
            FilterMembers(members, names, c) + KeptMember(FilterNode(last, names, c), c)
    decreases |members|
  {
    if members == [] {
      assert members + [last] == [last] && [last][1..] == [];
    } else {
      assert (members + [last])[0] == members[0] && (members + [last])[1..] == members[1..] + [last];
      FilterSnoc(members[1..], last, names, c);
    }
  }

  method FilterList(members: seq<Descriptor>, names: Option<NameNode>, c: Criteria) returns (kept: seq<Descriptor>)
    ensures kept == FilterMembers(members, names, c)
    decreases members, 0
  {
    kept := [];
    for i := 0 to |members|
      invariant kept == FilterMembers(members[..i], names, c)
    {
      var member := FilterSubtree(members[i], names, c);
      if member.Some? && Accepts(c, member.value) {
        kept := kept + [member.value];
      }
      assert members[..i + 1] == members[..i] + [members[i]];
      FilterSnoc(members[..i], members[i], names, c);
    }
    assert members[..|members|] == members;
  }
}
