/**
 The paths of locations and the joining of paths (the `path` getter and `Location.join` in
 packages/cli-tool/src/location.ts).
 */
module LocationPaths {
  import opened Options
  import opened Paths
  import opened Locations
  import opened LocationComposition

  // ---- Locations and their own paths ---------------------------------------------------------------------------

  lemma {:induction false} PlacedNames(g: Graph, l: Location)
    requires Placed(g, l)
    ensures AllPlain(l.Names()) && (l.Child? ==> l.Names() != [] && l.Names()[0] != "")
    ensures forall p: Place :: !p.dotted ==> !AdvanceAll(p, l.Names()).dotted
  {
    if l.Child? {
      PlacedNames(g, l.parent);
      forall p: Place | !p.dotted ensures !AdvanceAll(p, l.Names()).dotted {
        AdvanceSnoc(p, l.parent.Names(), l.basename);
      }
    }
  }

  lemma {:induction false} WalkOwnNames(g: Graph, l: Location)
    requires Placed(g, l) && g.IsDirectory(l.Top().definition)
    ensures Walk(g, l.Top(), l.Names(), false) == Found(l)
  {
    if l.Child? {
      WalkOwnNames(g, l.parent);
      PlacedNames(g, l.parent);
      assert [l.basename][1..] == [];
      if l.parent.Root? {
        assert l.Names() == [l.basename];
      } else {
        OwnNamesJoin(g, l.parent, l.basename);
        WalkComposes(g, l.Top(), START, l.parent.Names(), [l.basename]);
      }
    }
  }

  lemma OwnNamesJoin(g: Graph, l: Location, name: string)
    requires Placed(g, l) && l.Child?
    ensures l.Names() != [] && Joins(START, l.Names(), [name])
  {
    assert l.Names()[|l.Names()| - 1] == l.basename;
  }

  /** Looking a location's own path up, from any directory of the tree, finds that very location. */
  lemma OwnPathFindsLocation(g: Graph, l: Location, start: Location)
    requires Placed(g, l) && start.Top() == l.Top()
    requires g.IsDirectory(start.definition) && g.IsDirectory(l.Top().definition)
    ensures At(g, start, PathOf(l)) == Found(l)
  {
    PlacedNames(g, l);
    WalkOwnNames(g, l);
    AbsoluteStartsAtTop(g, start, Join(l.Names()));
    if l.Child? {
      TraceIsJoined(l);
      SplitJoin(l.Names());
      MaybeAtWalks(g, l.Top(), Join(l.Names()));
    } else {
      assert "/" + Join([]) == "/";
    }
  }

  // ---- Paths of names ------------------------------------------------------------------------------------------

  /** Definitions that lead, one name at a time, from one to the next; all but the last are directories. */
  predicate Leads(g: Graph, ds: seq<nat>, names: seq<string>) {
    && |ds| == |names| + 1
    && forall i :: 0 <= i < |names| ==>
         && ds[i] in g.directories && ds[i] in g.entries
         && names[i] in g.entries[ds[i]] && g.entries[ds[i]][names[i]] == ds[i + 1]
  }

  predicate AllNames(names: seq<string>) { forall i :: 0 <= i < |names| ==> Name(names[i]) }

  /** The location below another with these names and definitions. */
  function Below(l: Location, ds: seq<nat>, names: seq<string>): Location
    requires |ds| == |names|
    decreases names
  {
    if names == [] then l else Below(Child(names[0], ds[0], l), ds[1..], names[1..])
  }

  /** What a walk over names comes to when the definitions lead as far as they go. */
  function Outcome(g: Graph, l: Location, ds: seq<nat>, names: seq<string>): Lookup
    requires 1 <= |ds| <= |names| + 1
  {
    if |ds| == |names| + 1 then Found(Below(l, ds[1..], names))
    else if ds[|ds| - 1] !in g.directories then NotADirectory
    else if |names| == 1 then Missing
    else NotFound
  }

  /** The definitions lead along the names as far as they go. */
  predicate Farthest(g: Graph, ds: seq<nat>, names: seq<string>) {
    && 1 <= |ds| <= |names| + 1 && Leads(g, ds, names[..|ds| - 1])
    && (|ds| <= |names| ==>
          var d := ds[|ds| - 1];
          d !in g.directories || d !in g.entries || names[|ds| - 1] !in g.entries[d])
  }

  lemma {:induction false} WalksNames(g: Graph, l: Location, ds: seq<nat>, names: seq<string>)
    requires names != [] && AllNames(names) && Farthest(g, ds, names) && ds[0] == l.definition
    ensures Walk(g, l, names, false) == Outcome(g, l, ds, names)
    decreases |names|
  {
    var first, rest := names[0], names[1..];
    assert Name(first);
    if |ds| > 1 {
      var left := ds[1..];
      assert names[..|ds| - 1][0] == first && names[..|ds| - 1][1..] == rest[..|left| - 1];
      assert g.Entry(l.definition, first) == Some(ds[1]);
      var sub := Child(first, ds[1], l);
      if rest == [] {
        assert Below(l, left, names) == Below(sub, left[1..], rest) == sub;
      } else {
        LeadsFromRest(g, ds, names);
        WalksNames(g, sub, left, rest);
      }
    }
  }

  lemma LeadsFromRest(g: Graph, ds: seq<nat>, names: seq<string>)
    requires |ds| > 1 && Farthest(g, ds, names)
    ensures Farthest(g, ds[1..], names[1..])
  {
    var left, rest := ds[1..], names[1..];
    var done := names[..|ds| - 1];
    assert rest[..|left| - 1] == done[1..];
    forall i | 0 <= i < |left| - 1
      ensures && left[i] in g.directories && left[i] in g.entries
              && rest[i] in g.entries[left[i]] && g.entries[left[i]][rest[i]] == left[i + 1]
    {
      assert done[i + 1] == rest[i];
    }
  }

  /**
   A path of names is found exactly when each name leads on.  Where the names stop leading on, the lookup fails: the
   definition reached is no directory, or it has no such entry, which a path of a single name may leave open.
   */
  lemma NamesOutcome(g: Graph, l: Location, ds: seq<nat>, names: seq<string>)
    requires names != [] && AllNames(names) && Farthest(g, ds, names) && ds[0] == l.definition
    ensures MaybeAt(g, l, Join(names)) == Outcome(g, l, ds, names)
    ensures At(g, l, Join(names)) ==
            var r := Outcome(g, l, ds, names); if r.Found? || r.NotADirectory? then r else NotFound
  {
    assert AllPlain(names);
    SplitJoin(names);
    MaybeAtWalks(g, l, Join(names));
    WalksNames(g, l, ds, names);
  }

  /** There are always definitions that lead as far as the names go. */
  lemma {:induction false} FarthestExists(g: Graph, d: nat, names: seq<string>) returns (ds: seq<nat>)
    ensures Farthest(g, ds, names) && ds[0] == d
    decreases |names|
  {
    ds := [d];
    if names != [] && d in g.directories && d in g.entries && names[0] in g.entries[d] {
      var left := FarthestExists(g, g.entries[d][names[0]], names[1..]);
      ds := [d] + left;
      var done := names[..|ds| - 1];
      forall i | 0 <= i < |done|
        ensures && ds[i] in g.directories && ds[i] in g.entries
                && done[i] in g.entries[ds[i]] && g.entries[ds[i]][done[i]] == ds[i + 1]
      {
        if i > 0 {
          assert names[1..][..|left| - 1][i - 1] == done[i] && ds[i] == left[i - 1];
        }
      }
    }
  }

  /** The paths that go nowhere; a location must be a directory even for these. */
  lemma StayingPaths(g: Graph, l: Location)
    ensures MaybeAt(g, l, "") == MaybeAt(g, l, ".") == if l.definition in g.directories then Found(l) else NotADirectory
  {
    MaybeAtWalks(g, l, ".");
    SplitPlain(".");
    assert ["."][1..] == [];
  }

  /** The path that goes up, and stays at the root; where it leads must be a directory too. */
  lemma UpwardPath(g: Graph, l: Location)
    ensures MaybeAt(g, l, "..") ==
            if l.definition !in g.directories then NotADirectory
            else if l.Root? then Found(l)
            else if l.parent.definition in g.directories then Found(l.parent) else NotADirectory
  {
    MaybeAtWalks(g, l, "..");
    SplitPlain("..");
    WalksUp(g, l, [".."]);
  }

  lemma WalksUp(g: Graph, l: Location, segments: seq<string>)
    requires segments == [".."]
    ensures g.IsDirectory(l.definition) ==>
              Walk(g, l, segments, false) == if g.IsDirectory(l.Up().definition) then Found(l.Up()) else NotADirectory
    ensures !g.IsDirectory(l.definition) ==> Walk(g, l, segments, false) == NotADirectory
  {
    assert segments[1..] == [] && |segments[0]| == 2;
  }

  lemma RootPath(g: Graph, l: Location)
    ensures MaybeAt(g, l, "/") ==
            if l.definition in g.directories && l.Top().definition in g.directories then Found(l.Top())
            else NotADirectory
  {
    if l.definition in g.directories {
      AbsoluteStartsAtTop(g, l, "");
      assert "/" + "" == "/";
    }
  }

  // ---- Empty segments ------------------------------------------------------------------------------------------

  /**
   An empty segment between two parts starts over at the root, unless the first part ends in a run of segments that
   began with ".": there it is dropped, with any empty segments and dots that follow it.
   */
  lemma EmptySegmentInside(g: Graph, l: Location, a: seq<string>, r: Location, b: seq<string>)
    requires a != [] && b != [] && !EndsEmpty(START, a)
    requires Walk(g, l, a, false) == Found(r) && g.IsDirectory(r.definition)
    ensures Required(Walk(g, l, a + ([""] + b), false)) ==
            Required(if AdvanceAll(START, a).dotted then Walk(g, r, b, true) else Walk(g, r.Top(), b, false))
  {
    WalkGoesOn(g, l, START, a, [""] + b);
    assert ([""] + b)[1..] == b;
  }

  /** Past a first part that does not end in an empty segment a walk goes on from where that part ended. */
  lemma {:induction false} WalkGoesOn(g: Graph, l: Location, p: Place, a: seq<string>, b: seq<string>)
    requires a != [] && b != [] && !EndsEmpty(p, a) && Walk(g, l, a, p.dotted).Found?
    ensures Required(Walk(g, l, a + b, p.dotted)) ==
            Required(Walk(g, Walk(g, l, a, p.dotted).location, b, AdvanceAll(p, a).dotted))
    decreases |a|
  {
    var first, rest := a[0], a[1..];
    assert (a + b)[0] == first && (a + b)[1..] == rest + b;
    if |a| == 1 {
      assert a == [first] && rest + b == b && a[..0] == [];
    } else {
      assert a[..|a| - 1][1..] == rest[..|rest| - 1];
      if first == "." || (first == "" && p.dotted) {
        WalkGoesOn(g, l, Advance(p, first), rest, b);
      } else if first == "" {
        WalkGoesOn(g, l.Top(), Advance(p, first), rest, b);
      } else if first == ".." {
        WalkGoesOn(g, l.Up(), Advance(p, first), rest, b);
      } else {
        WalkGoesOn(g, Child(first, g.Entry(l.definition, first).value, l), Advance(p, first), rest, b);
      }
    }
  }

  // ---- Joining paths -------------------------------------------------------------------------------------------

  function JoinPath(path: string, other: string): string {
    if Absolute(other) then other
    else if path != "" && path[|path| - 1] == '/' then path + other
    else path + "/" + other
  }

  function JoinPaths(path: string, others: seq<string>): string {
    if others == [] then path else JoinPath(JoinPaths(path, others[..|others| - 1]), others[|others| - 1])
  }

  /** `Location.join`. */
  method JoinAll(path: string, others: seq<string>) returns (r: string)
    ensures r == JoinPaths(path, others)
  {
    r := path;
    for i := 0 to |others|
      invariant r == JoinPaths(path, others[..i])
    {
      var other := others[i];
      assert others[..i + 1][..i] == others[..i];
      if other != "" && other[0] == '/' {
        r := other;
      } else if r != "" && r[|r| - 1] == '/' {
        r := r + other;
      } else {
        r := r + "/" + other;
      }
    }
    assert others[..|others|] == others;
  }

  /** The segments of a joined path are those of its parts; a slash at the end of the first is no segment. */
  lemma JoinedSegments(path: string, other: string)
    ensures Absolute(other) ==> JoinPath(path, other) == other
    ensures !Absolute(other) ==>
              Split(JoinPath(path, other)) ==
              (if path != "" && path[|path| - 1] == '/' then Split(path[..|path| - 1]) else Split(path)) + Split(other)
  {
    if path != "" && path[|path| - 1] == '/' {
      var before := path[..|path| - 1];
      assert path + other == before + "/" + other;
      SplitAppend(before, other);
    } else {
      SplitAppend(path, other);
    }
  }

  /** A path without a trailing slash ends in a segment that is not empty. */
  lemma {:induction false} LastSegment(path: string)
    requires path != "" && path[|path| - 1] != '/'
    ensures Split(path)[|Split(path)| - 1] != ""
  {
    assert path == [path[0]] + path[1..];
    SplitCons(path[0], path[1..]);
    if |path| > 1 {
      LastSegment(path[1..]);
    }
  }

  lemma UnslashedJoins(path: string, other: string)
    requires path != "" && path[|path| - 1] != '/' && !Absolute(other)
    ensures Joinable(path, other)
  {
    LastSegment(path);
    AbsoluteIff(other);
  }

  /** Joining a relative path to a path that is not empty leads where looking up the two in turn leads. */
  lemma JoinedRelative(g: Graph, l: Location, path: string, other: string)
    requires path != "" && !Absolute(other)
    ensures At(g, l, JoinPath(path, other)) == AtOf(g, At(g, l, path), other)
  {
    if path[|path| - 1] == '/' {
      var before := path[..|path| - 1];
      assert before + "/" == path;
      SlashedJoins(g, l, before, other);
    } else {
      UnslashedJoins(path, other);
      LookupComposes(g, l, path, other);
    }
  }

  /** A trailing slash is the slash between the two parts. */
  lemma SlashedJoins(g: Graph, l: Location, path: string, other: string)
    requires !Absolute(other)
    ensures At(g, l, path + "/" + other) == AtOf(g, At(g, l, path + "/"), other)
  {
    assert path + "/" == path + "/" + "";
    SplitAppend(path, "");
    SplitAppend(path, other);
    AbsoluteIff(other);
    MaybeAtWalks(g, l, path + "/" + other);
    MaybeAtWalks(g, l, path + "/");
    if At(g, l, path + "/").Found? {
      MaybeAtWalks(g, At(g, l, path + "/").location, other);
    }
    SlashedWalk(g, l, START, Split(path), Split(other));
  }

  lemma {:induction false} SlashedWalk(g: Graph, l: Location, p: Place, a: seq<string>, b: seq<string>)
    requires a != [] && b != [] && !IsAbsolute(b)
    ensures Required(Walk(g, l, a + b, p.dotted)) == Then(g, Required(Walk(g, l, a + [""], p.dotted)), b)
    decreases |a|
  {
    var first, rest := a[0], a[1..];
    assert (a + b)[0] == first && (a + b)[1..] == rest + b;
    assert (a + [""])[0] == first && (a + [""])[1..] == rest + [""];
    if |a| == 1 {
      SlashedLast(g, l, p, first, b);
      assert a == [first] && rest + b == b && rest + [""] == [""];
    } else {
      if first == "." || (first == "" && p.dotted) {
        SlashedWalk(g, l, Advance(p, first), rest, b);
      } else if first == "" {
        SlashedWalk(g, l.Top(), Advance(p, first), rest, b);
      } else if first == ".." {
        SlashedWalk(g, l.Up(), Advance(p, first), rest, b);
      } else {
        var entry := g.Entry(l.definition, first);
        if entry.Some? {
          SlashedWalk(g, Child(first, entry.value, l), Advance(p, first), rest, b);
        }
      }
    }
  }

  lemma SlashedLast(g: Graph, l: Location, p: Place, segment: string, b: seq<string>)
    requires b != [] && !IsAbsolute(b)
    ensures Required(Walk(g, l, [segment] + b, p.dotted)) ==
            Then(g, Required(Walk(g, l, [segment] + [""], p.dotted)), b)
  {
    assert ([segment] + b)[1..] == b && ([segment] + [""])[1..] == [""] && [""][1..] == [];
    DotsAreHarmless(g, l, b);
    DotsAreHarmless(g, l, [""]);
  }

  /** Joining anything to the empty path makes it absolute. */
  lemma JoinedToNothing(g: Graph, l: Location, other: string)
    requires g.IsDirectory(l.definition) && !Absolute(other)
    ensures At(g, l, JoinPath("", other)) == At(g, l.Top(), other)
  {
    assert JoinPath("", other) == "" + "/" + other == "/" + other;
    AbsoluteStartsAtTop(g, l, other);
    assert MaybeAt(g, l, JoinPath("", other)) == MaybeAt(g, l.Top(), other);
  }

  /** Looking up the parts of a joined path in turn; an absolute part forgets those before it. */
  function AtEach(g: Graph, l: Location, path: string, others: seq<string>): Lookup {
    if others == [] then At(g, l, path)
    else
      var last := others[|others| - 1];
      if Absolute(last) then At(g, l, last) else AtOf(g, AtEach(g, l, path, others[..|others| - 1]), last)
  }

  predicate StartsSomewhere(path: string, others: seq<string>) { path != "" || others == [] || Absolute(others[0]) }

  lemma {:induction false} JoinedIsNotEmpty(path: string, others: seq<string>)
    requires others != []
    ensures JoinPaths(path, others) != ""
  {
  }

  /** A joined path leads where looking up its parts in turn leads, unless it joins a relative path to nothing. */
  lemma {:induction false} JoinedPathsCompose(g: Graph, l: Location, path: string, others: seq<string>)
    requires StartsSomewhere(path, others)
    ensures At(g, l, JoinPaths(path, others)) == AtEach(g, l, path, others)
  {
    if others != [] {
      var before, last := others[..|others| - 1], others[|others| - 1];
      JoinedPathsCompose(g, l, path, before);
      if !Absolute(last) {
        if before != [] {
          JoinedIsNotEmpty(path, before);
        }
        JoinedRelative(g, l, JoinPaths(path, before), last);
      }
    }
  }

  /** That exception is real: the condition is exact. */
  lemma JoinedPathsComposeIff(path: string)
    ensures (forall g, l, others :: At(g, l, JoinPaths(path, others)) == AtEach(g, l, path, others)) <==> path != ""
  {
    if path == "" {
      var g, l := Graph({0}, map[]), Child("x", 0, Root(0));
      JoinedToNothing(g, l, "");
      assert [""][..0] == [];
      assert JoinPaths("", [""]) == JoinPath("", "");
      assert AtEach(g, l, "", [""]) == Found(l);
      assert At(g, l, JoinPaths(path, [""])) != AtEach(g, l, path, [""]);
    } else {
      forall g, l, others ensures At(g, l, JoinPaths(path, others)) == AtEach(g, l, path, others) {
        JoinedPathsCompose(g, l, path, others);
      }
    }
  }
}
