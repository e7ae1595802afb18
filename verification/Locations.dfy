/**
 The virtual filesystem of the command line tool (packages/cli-tool/src/location.ts): locations in a graph of
 definitions that may be cyclic, looked up by path.
 */
module Locations {
  import opened Options
  import opened Paths

  /**
   The object graph.  `entries[d][name]` is what `definitionAt(name)`, or the property of that name, yields below
   definition `d`; a missing entry stands for `undefined` and `null`.
   */
  datatype Graph = Graph(directories: set<nat>, entries: map<nat, map<string, nat>>)
  {
    predicate IsDirectory(d: nat) { d in directories }

    function Entry(d: nat, name: string): Option<nat> {
      if d in entries && name in entries[d] then Some(entries[d][name]) else None
    }
  }

  datatype Location = Root(definition: nat) | Child(basename: string, definition: nat, parent: Location)
  {
    function Top(): Location { if Root? then this else parent.Top() }

    function Up(): Location { if Root? then this else parent }

    /** The base names from the root down. */
    function Names(): seq<string> { if Root? then [] else parent.Names() + [basename] }
  }

  datatype Lookup = Found(location: Location) | Missing | NotFound | NotADirectory

  /** `at`: a lookup that found nothing is an error. */
  function Required(r: Lookup): Lookup { if r.Missing? then NotFound else r }

  // ---- The path of a location ----------------------------------------------------------------------------------

  function Trace(l: Location): string { if l.Root? then "" else Trace(l.parent) + "/" + l.basename }

  function PathOf(l: Location): string { if l.Root? then "/" else Trace(l) }

  /** The `path` getter. */
  method ComputePath(l: Location) returns (path: string)
    ensures path == PathOf(l)
  {
    if l.Root? {
      return "/";
    }
    path := "";
    var location := l;
    while location.Child?
      invariant Trace(location) + path == Trace(l)
      decreases location
    {
      path := "/" + location.basename + path;
      location := location.parent;
    }
  }

  lemma {:induction false} TraceIsJoined(l: Location)
    requires l.Child?
    ensures Trace(l) == "/" + Join(l.Names())
  {
    if l.parent.Child? {
      TraceIsJoined(l.parent);
      JoinSnoc(l.parent.Names(), l.basename);
    } else {
      assert l.Names() == [l.basename];
    }
  }

  lemma {:induction false} JoinSnoc(segments: seq<string>, last: string)
    requires segments != []
    ensures Join(segments + [last]) == Join(segments) + "/" + last
  {
    if |segments| > 1 {
      assert (segments + [last])[1..] == segments[1..] + [last];
      JoinSnoc(segments[1..], last);
    } else {
      assert (segments + [last])[1..] == [last];
    }
  }

  // ---- Lookup --------------------------------------------------------------------------------------------------

  function SkipDots(segments: seq<string>): (rest: seq<string>)
    ensures |rest| <= |segments| && rest == segments[|segments| - |rest|..]
  {
    if segments != [] && (segments[0] == "" || segments[0] == ".") then SkipDots(segments[1..]) else segments
  }

  lemma {:induction false} JoinSuffix(segments: seq<string>, k: nat)
    requires k <= |segments|
    ensures |Join(segments[k..])| <= |Join(segments)|
    ensures 0 < k && |segments| > 1 ==> |Join(segments[k..])| < |Join(segments)|
  {
    if k > 0 && |segments| > 1 {
      JoinSuffix(segments[1..], k - 1);
      assert segments[1..][k - 1..] == segments[k..];
    } else if k > 0 {
      assert segments[k..] == [];
    } else {
      assert segments[0..] == segments;
    }
  }

  /** What is left of a path after its first segments is shorter than the path. */
  lemma RestIsShorter(path: string, k: nat)
    requires path != "" && 0 < k <= |Split(path)|
    ensures |Join(Split(path)[k..])| < |path|
  {
    JoinSplit(path);
    JoinSuffix(Split(path), k);
    if |Split(path)| == 1 {
      assert Split(path)[k..] == [];
    }
  }

  /** `maybeAt`.  The graph may have cycles: every step uses up a part of the path. */
  function MaybeAt(g: Graph, l: Location, path: string): Lookup
    decreases |path|
  {
    if !g.IsDirectory(l.definition) then NotADirectory
    else if path == "" then Found(l)
    else
      var segments := Split(path);
      if segments[0] == "" then
        (RestIsShorter(path, 1); MaybeAt(g, l.Top(), Join(segments[1..])))
      else
        var rest := SkipDots(segments);
        if rest == [] then Found(l)
        else
          var after := Join(rest[1..]);
          assert |after| < |path| by {
            var k := |segments| - |rest| + 1;
            assert rest[1..] == segments[k..];
            RestIsShorter(path, k);
          }
          if rest[0] == ".." then MaybeAt(g, l.Up(), after)
          else
            var entry := g.Entry(l.definition, rest[0]);
            if entry.None? then if |rest| > 1 then NotFound else Missing
            else
              var sub := Child(rest[0], entry.value, l);
              if |rest| == 1 then Found(sub) else Required(MaybeAt(g, sub, after))
  }

  function At(g: Graph, l: Location, path: string): Lookup { Required(MaybeAt(g, l, path)) }

  // ---- Lookup by segments --------------------------------------------------------------------------------------

  /**
   The lookup of any path, one segment at a time.  An empty segment at the head of what is left starts over at the
   root, unless nothing follows it; in a run of segments that began with "." it is dropped (`dotted`).
   */
  function Walk(g: Graph, l: Location, segments: seq<string>, dotted: bool): Lookup
    decreases segments
  {
    if !g.IsDirectory(l.definition) then NotADirectory
    else if segments == [] then Found(l)
    else
      var first, rest := segments[0], segments[1..];
      if first == "." || (first == "" && dotted) then Walk(g, l, rest, true)
      else if first == "" then if rest == [] then Found(l) else Walk(g, l.Top(), rest, false)
      else if first == ".." then Walk(g, l.Up(), rest, false)
      else
        var entry := g.Entry(l.definition, first);
        if entry.None? then if rest == [] then Missing else NotFound
        else
          var sub := Child(first, entry.value, l);
          if rest == [] then Found(sub) else Required(Walk(g, sub, rest, false))
  }

  lemma {:induction false} WalkSkips(g: Graph, l: Location, segments: seq<string>)
    ensures Walk(g, l, segments, true) == Walk(g, l, SkipDots(segments), false)
  {
    if segments != [] && (segments[0] == "" || segments[0] == ".") {
      WalkSkips(g, l, segments[1..]);
    }
  }

  lemma JoinIsEmptyIff(segments: seq<string>)
    ensures Join(segments) == "" <==> segments == [] || segments == [""]
  {
  }

  lemma HeadSkips(g: Graph, l: Location, segments: seq<string>)
    requires segments != [] && segments[0] != ""
    ensures Walk(g, l, segments, false) == Walk(g, l, SkipDots(segments), false)
  {
    if segments[0] == "." {
      WalkSkips(g, l, segments[1..]);
    }
  }

  lemma {:induction false} JoinedWalk(g: Graph, l: Location, segments: seq<string>)
    requires AllPlain(segments)
    ensures MaybeAt(g, l, Join(segments)) == Walk(g, l, segments, false)
    decreases |segments|
  {
    JoinIsEmptyIff(segments);
    if g.IsDirectory(l.definition) && segments != [] && segments != [""] {
      SplitJoin(segments);
      if segments[0] == "" {
        RestartWalk(g, l, segments);
      } else {
        HeadSkips(g, l, segments);
        RestWalk(g, l, segments, SkipDots(segments));
      }
    }
  }

  lemma {:induction false} RestartWalk(g: Graph, l: Location, segments: seq<string>)
    requires AllPlain(segments) && |segments| > 1 && segments[0] == "" && g.IsDirectory(l.definition)
    requires Split(Join(segments)) == segments && Join(segments) != ""
    ensures MaybeAt(g, l, Join(segments)) == Walk(g, l, segments, false)
    decreases |segments|, 0
  {
    JoinedWalk(g, l.Top(), segments[1..]);
  }

  /** The step of `maybeAt` after its leading dots. */
  lemma {:induction false} RestWalk(g: Graph, l: Location, segments: seq<string>, rest: seq<string>)
    requires AllPlain(segments) && segments != [] && segments[0] != "" && rest == SkipDots(segments)
    requires Split(Join(segments)) == segments && Join(segments) != "" && g.IsDirectory(l.definition)
    ensures MaybeAt(g, l, Join(segments)) == Walk(g, l, rest, false)
    decreases |segments|, 0
  {
    SkipsDots(segments);
    if rest != [] {
      JoinedWalk(g, l.Up(), rest[1..]);
      var entry := g.Entry(l.definition, rest[0]);
      if entry.Some? {
        JoinedWalk(g, Child(rest[0], entry.value, l), rest[1..]);
      }
    }
  }

  lemma {:induction false} SkipsDots(segments: seq<string>)
    ensures SkipDots(segments) != [] ==> SkipDots(segments)[0] != "." && SkipDots(segments)[0] != ""
  {
    if segments != [] && (segments[0] == "" || segments[0] == ".") {
      SkipsDots(segments[1..]);
    }
  }

  /** The lookup of a path, whatever it is, is the walk over its segments. */
  lemma MaybeAtWalks(g: Graph, l: Location, path: string)
    ensures MaybeAt(g, l, path) == Walk(g, l, Split(path), false)
  {
    SplitIsPlain(path);
    JoinSplit(path);
    JoinedWalk(g, l, Split(path));
  }

  /** An absolute path is looked up from the top, wherever the lookup starts. */
  lemma AbsoluteStartsAtTop(g: Graph, l: Location, path: string)
    requires g.IsDirectory(l.definition)
    ensures MaybeAt(g, l, "/" + path) == MaybeAt(g, l.Top(), path)
  {
    assert ("/" + path)[1..] == path;
    MaybeAtWalks(g, l, "/" + path);
    MaybeAtWalks(g, l.Top(), path);
  }

  predicate Name(s: string) { s != "" && Plain(s) && s != "." && s != ".." }

  /** A location the graph supports: every parent is a directory that has the child under its base name. */
  predicate Placed(g: Graph, l: Location) {
    l.Child? ==>
      && Name(l.basename) && Placed(g, l.parent)
      && g.IsDirectory(l.parent.definition) && g.Entry(l.parent.definition, l.basename) == Some(l.definition)
  }

  lemma {:induction false} PlacedTop(g: Graph, l: Location)
    requires Placed(g, l)
    ensures Placed(g, l.Top()) && Placed(g, l.Up()) && l.Up().Top() == l.Top() && l.Top().Top() == l.Top()
    ensures l.Top().Names() == []
  {
    if l.Child? {
      PlacedTop(g, l.parent);
    }
  }

  // ---- Where a lookup ends -------------------------------------------------------------------------------------

  /** The names of the location a path leads to, from a location with the given names. */
  function Resolve(names: seq<string>, segments: seq<string>, dotted: bool): seq<string>
    decreases segments
  {
    if segments == [] then names
    else
      var first, rest := segments[0], segments[1..];
      if first == "." || (first == "" && dotted) then Resolve(names, rest, true)
      else if first == "" && rest == [] then names
      else if first == "" then Resolve([], rest, false)
      else Resolve(Extend(names, first), rest, false)
  }

  lemma {:induction false} WalkResolves(g: Graph, l: Location, segments: seq<string>, dotted: bool)
    requires Placed(g, l) && AllPlain(segments) && Walk(g, l, segments, dotted).Found?
    ensures var r := Walk(g, l, segments, dotted).location;
            Placed(g, r) && r.Top() == l.Top() && r.Names() == Resolve(l.Names(), segments, dotted)
    decreases |segments|
  {
    if segments != [] {
      var first, rest := segments[0], segments[1..];
      PlacedTop(g, l);
      if first == "." || (first == "" && dotted) {
        WalkResolves(g, l, rest, true);
      } else if first == "" {
        if rest != [] {
          WalkResolves(g, l.Top(), rest, false);
        }
      } else if first == ".." {
        WalkResolves(g, l.Up(), rest, false);
        assert l.Up().Names() == Extend(l.Names(), "..");
      } else {
        var sub := Child(first, g.Entry(l.definition, first).value, l);
        assert Placed(g, sub) && sub.Names() == Extend(l.Names(), first);
        if rest != [] {
          WalkResolves(g, sub, rest, false);
        }
      }
    }
  }

  /**
   Whenever a path is found, whatever the path and however the graph loops, the result is a location of the same tree
   with the names the path resolves to.
   */
  lemma FoundIsResolved(g: Graph, l: Location, path: string)
    requires Placed(g, l) && At(g, l, path).Found?
    ensures var r := At(g, l, path).location;
            Placed(g, r) && r.Top() == l.Top() && r.Names() == Resolve(l.Names(), Split(path), false)
  {
    MaybeAtWalks(g, l, path);
    SplitIsPlain(path);
    WalkResolves(g, l, Split(path), false);
  }

  /** Names determine a location: two placed locations of one tree with the same names are the same. */
  lemma {:induction false} NamesDetermine(g: Graph, a: Location, b: Location)
    requires Placed(g, a) && Placed(g, b) && a.Top() == b.Top() && a.Names() == b.Names()
    ensures a == b
  {
    if a.Child? && b.Child? {
      var names := a.Names();
      assert names[..|names| - 1] == a.parent.Names() && names[..|names| - 1] == b.parent.Names();
      NamesDetermine(g, a.parent, b.parent);
    }
  }

  predicate Solid(segments: seq<string>) {
    forall i :: 0 <= i < |segments| ==> segments[i] != "" && Plain(segments[i])
  }

  lemma {:induction false} SolidResolves(names: seq<string>, segments: seq<string>, dotted: bool)
    requires Solid(segments)
    ensures Resolve(names, segments, dotted) == ExtendAll(names, segments)
    decreases segments
  {
    if segments != [] {
      SolidResolves(names, segments[1..], true);
      SolidResolves(Extend(names, segments[0]), segments[1..], false);
    }
  }

  /** Without empty segments that is lexical normalisation, with `..` clamped at the root. */
  lemma SolidIsNormalised(names: seq<string>, path: string)
    requires Solid(Split(path)) && Normalise(names) == names
    ensures Resolve(names, Split(path), false) == Normalise(names + Split(path))
  {
    SolidResolves(names, Split(path), false);
    NormaliseAppend(names, Split(path));
  }

  function Repeat(name: string, n: nat): seq<string> { if n == 0 then [] else [name] + Repeat(name, n - 1) }

  /** On a definition that contains itself every depth is found and ends at the same definition. */
  lemma {:induction false} CycleIsFollowed(g: Graph, l: Location, name: string, n: nat)
    requires Name(name) && g.IsDirectory(l.definition) && g.Entry(l.definition, name) == Some(l.definition)
    ensures var r := Walk(g, l, Repeat(name, n), false);
            r.Found? && r.location.definition == l.definition && r.location.Names() == l.Names() + Repeat(name, n)
    decreases n
  {
    if n > 0 {
      var sub := Child(name, l.definition, l);
      CycleIsFollowed(g, sub, name, n - 1);
      assert Repeat(name, n)[1..] == Repeat(name, n - 1);
      assert l.Names() + [name] + Repeat(name, n - 1) == l.Names() + Repeat(name, n);
      if n == 1 {
        assert Repeat(name, 1) == [name];
      }
    }
  }
}
