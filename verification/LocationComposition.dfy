/**
 Looking up a path in two parts (`at`, `maybeAt` and `Location.join` in packages/cli-tool/src/location.ts): when is
 looking up `a/b` the same as looking up `a` and from there `b`?
 */
module LocationComposition {
  import opened Options
  import opened Paths
  import opened Locations

  // ---- Where a walk stands -------------------------------------------------------------------------------------

  /**
   What the segments walked so far tell of the location reached, whatever the graph: whether the walk has started over
   at the root, how deep below the root it is then, and whether it is in a run of segments that began with ".".
   */
  datatype Place = Place(anchored: bool, depth: nat, dotted: bool)
  {
    predicate AtTop() { anchored && depth == 0 }
  }

  const START := Place(false, 0, false)

  /** The place after a segment that another one follows. */
  function Advance(p: Place, segment: string): Place {
    if segment == "." || (segment == "" && p.dotted) then p.(dotted := true)
    else if segment == "" then Place(true, 0, false)
    else if segment == ".." then Place(p.anchored, if p.depth == 0 then 0 else p.depth - 1, false)
    else Place(p.anchored, p.depth + 1, false)
  }

  function AdvanceAll(p: Place, segments: seq<string>): Place
    decreases segments
  {
    if segments == [] then p else AdvanceAll(Advance(p, segments[0]), segments[1..])
  }

  predicate Matches(l: Location, p: Place) { p.anchored ==> |l.Names()| == p.depth }

  lemma TopHasNoNames(l: Location)
    ensures l.Names() == [] <==> l.Top() == l
    ensures l.Top().Names() == [] && l.Top().Root? && l.Top().Top() == l.Top()
  {
  }

  // ---- Composition ---------------------------------------------------------------------------------------------

  predicate IsAbsolute(segments: seq<string>) { |segments| > 1 && segments[0] == "" }

  /** The last of the segments `a` is empty and would restart the walk if another segment followed. */
  predicate EndsEmpty(p: Place, a: seq<string>)
    requires a != []
  {
    a[|a| - 1] == "" && !AdvanceAll(p, a[..|a| - 1]).dotted
  }

  /**
   When the second part goes on where the first part ended.  After an empty last segment the walk restarts, where the
   first part alone would have stayed: that makes no difference at the root, or if the second part restarts as well.
   In a run of dots the second part does not restart, where it would on its own.
   */
  predicate Joins(p: Place, a: seq<string>, b: seq<string>)
    requires a != []
  {
    if EndsEmpty(p, a) then AdvanceAll(p, a[..|a| - 1]).AtTop() || IsAbsolute(b)
    else AdvanceAll(p, a).dotted && IsAbsolute(b) ==> AdvanceAll(p, a).AtTop()
  }

  function Then(g: Graph, r: Lookup, segments: seq<string>): Lookup {
    if r.Found? then Required(Walk(g, r.location, segments, false)) else r
  }

  /** A run of dots matters only to a second part that starts over somewhere else. */
  lemma {:induction false} DotsAreHarmless(g: Graph, l: Location, segments: seq<string>)
    requires l.Root? || !IsAbsolute(segments)
    ensures Walk(g, l, segments, true) == Walk(g, l, segments, false)
    decreases segments
  {
    if IsAbsolute(segments) {
      DotsAreHarmless(g, l, segments[1..]);
    }
  }

  lemma RestartsOnce(g: Graph, l: Location, segments: seq<string>)
    requires IsAbsolute(segments) && g.IsDirectory(l.definition)
    ensures Walk(g, l.Top(), segments, false) == Walk(g, l, segments, false)
  {
    TopHasNoNames(l);
    assert Walk(g, l, segments, false) == Walk(g, l.Top(), segments[1..], false);
  }

  lemma LastSegmentComposes(g: Graph, l: Location, p: Place, segment: string, b: seq<string>)
    requires Matches(l, p) && b != [] && Joins(p, [segment], b)
    ensures Required(Walk(g, l, [segment] + b, p.dotted)) == Then(g, Required(Walk(g, l, [segment], p.dotted)), b)
  {
    assert ([segment] + b)[1..] == b && [segment][1..] == [] && [segment][..0] == [];
    TopHasNoNames(l);
    assert AdvanceAll(p, [segment]) == Advance(p, segment);
    if g.IsDirectory(l.definition) {
      if segment == "." || (segment == "" && p.dotted) {
        DotsAreHarmless(g, l, b);
      } else if segment == "" {
        assert EndsEmpty(p, [segment]);
        if IsAbsolute(b) {
          RestartsOnce(g, l, b);
        }
      }
    }
  }

  lemma AdvanceMatches(g: Graph, l: Location, p: Place, segment: string)
    requires Matches(l, p)
    ensures segment == "." || (segment == "" && p.dotted) ==> Matches(l, Advance(p, segment))
    ensures segment == "" && !p.dotted ==> Matches(l.Top(), Advance(p, segment))
    ensures segment == ".." ==> Matches(l.Up(), Advance(p, segment))
    ensures segment != "" && segment != "." && segment != ".." ==>
              forall d: nat :: Matches(Child(segment, d, l), Advance(p, segment))
  {
    TopHasNoNames(l);
  }

  lemma JoinsFromRest(p: Place, a: seq<string>, b: seq<string>)
    requires |a| > 1
    ensures Joins(p, a, b) <==> Joins(Advance(p, a[0]), a[1..], b)
  {
    assert a[..|a| - 1][1..] == a[1..][..|a| - 2];
  }

  lemma {:induction false} WalkComposes(g: Graph, l: Location, p: Place, a: seq<string>, b: seq<string>)
    requires a != [] && b != [] && Matches(l, p) && Joins(p, a, b)
    ensures Required(Walk(g, l, a + b, p.dotted)) == Then(g, Required(Walk(g, l, a, p.dotted)), b)
    decreases |a|
  {
    if |a| == 1 {
      assert a == [a[0]];
      LastSegmentComposes(g, l, p, a[0], b);
    } else {
      var first, rest := a[0], a[1..];
      assert (a + b)[0] == first && (a + b)[1..] == rest + b;
      JoinsFromRest(p, a, b);
      AdvanceMatches(g, l, p, first);
      if first == "." || (first == "" && p.dotted) {
        WalkComposes(g, l, Advance(p, first), rest, b);
      } else if first == "" {
        WalkComposes(g, l.Top(), Advance(p, first), rest, b);
      } else if first == ".." {
        WalkComposes(g, l.Up(), Advance(p, first), rest, b);
      } else {
        var entry := g.Entry(l.definition, first);
        if entry.Some? {
          WalkComposes(g, Child(first, entry.value, l), Advance(p, first), rest, b);
        }
      }
    }
  }

  function AtOf(g: Graph, r: Lookup, path: string): Lookup { if r.Found? then At(g, r.location, path) else r }

  ghost predicate ComposesAt(g: Graph, l: Location, a: string, b: string) {
    At(g, l, a + "/" + b) == AtOf(g, At(g, l, a), b)
  }

  lemma ComposesOnSegments(g: Graph, l: Location, a: string, b: string)
    ensures ComposesAt(g, l, a, b) <==>
            Required(Walk(g, l, Split(a) + Split(b), false)) == Then(g, Required(Walk(g, l, Split(a), false)), Split(b))
  {
    SplitAppend(a, b);
    MaybeAtWalks(g, l, a + "/" + b);
    MaybeAtWalks(g, l, a);
    if At(g, l, a).Found? {
      MaybeAtWalks(g, At(g, l, a).location, b);
    }
  }

  predicate Joinable(a: string, b: string) { Joins(START, Split(a), Split(b)) }

  /** Looking up `a/b` is looking up `a` and from there `b`, errors included, for all paths that join. */
  lemma LookupComposes(g: Graph, l: Location, a: string, b: string)
    requires Joinable(a, b)
    ensures At(g, l, a + "/" + b) == AtOf(g, At(g, l, a), b)
  {
    WalkComposes(g, l, START, Split(a), Split(b));
    ComposesOnSegments(g, l, a, b);
  }

  // ---- Where the parts do not compose --------------------------------------------------------------------------

  /** A graph of one directory that contains itself under each of the given names. */
  function Loop(names: set<string>): Graph { Graph({0}, map[0 := map name | name in names :: 0]) }

  /** A location `depth` levels below a root with the given definition. */
  function Chain(depth: nat, top: nat): Location {
    if depth == 0 then Root(top) else Child("x", 0, Chain(depth - 1, top))
  }

  /** Where a walk in a loop gets to when every segment is followed by another one. */
  function Go(l: Location, dotted: bool, segments: seq<string>): Location
    decreases segments
  {
    if segments == [] then l
    else
      var first, rest := segments[0], segments[1..];
      if first == "." || (first == "" && dotted) then Go(l, true, rest)
      else if first == "" then Go(l.Top(), false, rest)
      else if first == ".." then Go(l.Up(), false, rest)
      else Go(Child(first, 0, l), false, rest)
  }

  /** Every location on the way is the directory. */
  predicate Clear(l: Location, dotted: bool, segments: seq<string>)
    decreases segments
  {
    l.definition == 0 &&
    (segments == [] ||
     var first, rest := segments[0], segments[1..];
     if first == "." || (first == "" && dotted) then Clear(l, true, rest)
     else if first == "" then Clear(l.Top(), false, rest)
     else if first == ".." then Clear(l.Up(), false, rest)
     else Clear(Child(first, 0, l), false, rest))
  }

  predicate Named(segments: seq<string>, names: set<string>) {
    forall i :: 0 <= i < |segments| ==> segments[i] in names
  }

  lemma {:induction false} LoopWalks(names: set<string>, l: Location, p: Place, a: seq<string>, c: seq<string>)
    requires Named(a, names) && Clear(l, p.dotted, a) && c != []
    ensures Required(Walk(Loop(names), l, a + c, p.dotted)) ==
            Required(Walk(Loop(names), Go(l, p.dotted, a), c, AdvanceAll(p, a).dotted))
    decreases |a|
  {
    if a == [] {
      assert a + c == c;
    } else {
      var first, rest := a[0], a[1..];
      assert (a + c)[0] == first && (a + c)[1..] == rest + c && Named(rest, names);
      if first == "." || (first == "" && p.dotted) {
        LoopWalks(names, l, Advance(p, first), rest, c);
      } else if first == "" {
        LoopWalks(names, l.Top(), Advance(p, first), rest, c);
      } else if first == ".." {
        LoopWalks(names, l.Up(), Advance(p, first), rest, c);
      } else {
        LoopWalks(names, Child(first, 0, l), Advance(p, first), rest, c);
        assert Loop(names).Entry(0, first) == Some(0);
      }
    }
  }

  /** All definitions up to the root are the directory. */
  predicate Uniform(l: Location) { l.definition == 0 && (l.Child? ==> Uniform(l.parent)) }

  lemma {:induction false} UniformTop(l: Location)
    requires Uniform(l)
    ensures Uniform(l.Top()) && Uniform(l.Up())
  {
    if l.Child? {
      UniformTop(l.parent);
    }
  }

  lemma {:induction false} ChainIsUniform(depth: nat)
    ensures Uniform(Chain(depth, 0)) && |Chain(depth, 0).Names()| == depth
  {
    if depth > 0 {
      ChainIsUniform(depth - 1);
    }
  }

  lemma {:induction false} GoesClear(l: Location, p: Place, a: seq<string>)
    requires Uniform(l) && Matches(l, p)
    ensures Clear(l, p.dotted, a) && Uniform(Go(l, p.dotted, a))
    ensures Matches(Go(l, p.dotted, a), AdvanceAll(p, a))
    ensures !AdvanceAll(p, a).anchored ==> |l.Names()| <= |Go(l, p.dotted, a).Names()| + |a|
    decreases |a|
  {
    if a != [] {
      var first, rest := a[0], a[1..];
      UniformTop(l);
      TopHasNoNames(l);
      if first == "." || (first == "" && p.dotted) {
        GoesClear(l, Advance(p, first), rest);
      } else if first == "" {
        GoesClear(l.Top(), Advance(p, first), rest);
        StaysAnchored(Advance(p, first), rest);
      } else if first == ".." {
        GoesClear(l.Up(), Advance(p, first), rest);
      } else {
        GoesClear(Child(first, 0, l), Advance(p, first), rest);
      }
    }
  }

  lemma {:induction false} StaysAnchored(p: Place, a: seq<string>)
    requires p.anchored
    ensures AdvanceAll(p, a).anchored
    decreases a
  {
    if a != [] {
      StaysAnchored(Advance(p, a[0]), a[1..]);
    }
  }

  function SegmentsOf(a: seq<string>): set<string> { set i | 0 <= i < |a| :: a[i] }

  /** A first part that does not end at the root ends elsewhere in some loop. */
  lemma EndsBelowTop(a: seq<string>) returns (l: Location)
    requires !AdvanceAll(START, a).AtTop()
    ensures Clear(l, false, a) && Uniform(Go(l, false, a)) && Go(l, false, a).Child?
  {
    l := Chain(|a| + 1, 0);
    ChainIsUniform(|a| + 1);
    GoesClear(l, START, a);
    TopHasNoNames(Go(l, false, a));
  }

  lemma {:induction false} AdvanceSnoc(p: Place, a: seq<string>, segment: string)
    ensures AdvanceAll(p, a + [segment]) == Advance(AdvanceAll(p, a), segment)
    decreases a
  {
    if a == [] {
      assert a + [segment] == [segment] && [segment][1..] == [];
    } else {
      assert (a + [segment])[1..] == a[1..] + [segment];
      AdvanceSnoc(Advance(p, a[0]), a[1..], segment);
    }
  }

  predicate Absolute(path: string) { path != "" && path[0] == '/' }

  lemma AbsoluteIff(path: string)
    ensures Absolute(path) <==> IsAbsolute(Split(path))
  {
  }

  ghost predicate SegmentsCompose(g: Graph, l: Location, a: seq<string>, b: seq<string>) {
    Required(Walk(g, l, a + b, false)) == Then(g, Required(Walk(g, l, a, false)), b)
  }

  /** After an empty last segment a second part restarts, and the empty path shows it. */
  lemma EmptyEndBreaks(a: seq<string>) returns (g: Graph, l: Location)
    requires a != [] && EndsEmpty(START, a) && !AdvanceAll(START, a[..|a| - 1]).AtTop()
    ensures !SegmentsCompose(g, l, a, [""])
  {
    var before := a[..|a| - 1];
    l := EndsBelowTop(before);
    var names := SegmentsOf(a);
    g := Loop(names);
    var r := Go(l, false, before);
    TopHasNoNames(r);
    UniformTop(r);
    LoopWalks(names, l, START, before, [""]);
    LoopWalks(names, l, START, before, ["", ""]);
    assert a == before + [""] && a + [""] == before + ["", ""];
    assert ["", ""][1..] == [""] && [""][1..] == [];
    assert Walk(g, r.Top(), [""], false) == Found(r.Top());
  }

  /** In a run of dots an absolute second part does not restart, and the root path shows it. */
  lemma DottedEndBreaks(a: seq<string>) returns (g: Graph, l: Location)
    requires a != [] && !EndsEmpty(START, a) && AdvanceAll(START, a).dotted && !AdvanceAll(START, a).AtTop()
    ensures !SegmentsCompose(g, l, a, ["", ""])
  {
    var before, last := a[..|a| - 1], a[|a| - 1];
    assert a == before + [last];
    AdvanceSnoc(START, before, last);
    l := EndsBelowTop(before);
    var names := SegmentsOf(a);
    g := Loop(names);
    var r := Go(l, false, before);
    var dotted := AdvanceAll(START, before).dotted;
    TopHasNoNames(r);
    UniformTop(r);
    LoopWalks(names, l, START, before, [last]);
    LoopWalks(names, l, START, before, [last, "", ""]);
    assert a + ["", ""] == before + [last, "", ""];
    assert [last, "", ""][1..] == ["", ""] && ["", ""][1..] == [""] && [""][1..] == [] && [last][1..] == [];
    assert Walk(g, r, [""], true) == Walk(g, r, [], true);
    assert Walk(g, r, ["", ""], true) == Found(r);
    assert Walk(g, r.Top(), [""], false) == Found(r.Top());
  }

  lemma DottedIsNotEmpty(a: seq<string>)
    requires a != [] && AdvanceAll(START, a).dotted
    ensures !EndsEmpty(START, a)
  {
    AdvanceSnoc(START, a[..|a| - 1], a[|a| - 1]);
    assert a == a[..|a| - 1] + [a[|a| - 1]];
  }

  /** A walk over the path does not end in an empty segment that would restart, or ends at the root before it. */
  predicate JoinsRelative(a: string) {
    EndsEmpty(START, Split(a)) ==> AdvanceAll(START, Split(a)[..|Split(a)| - 1]).AtTop()
  }

  /** A walk over the path does not end in a run of dots, or does so at the root. */
  predicate JoinsAbsolute(a: string) {
    AdvanceAll(START, Split(a)).dotted ==> AdvanceAll(START, Split(a)).AtTop()
  }

  lemma JoinableIff(a: string, b: string)
    ensures Joinable(a, b) <==> if Absolute(b) then JoinsAbsolute(a) else JoinsRelative(a)
  {
    AbsoluteIff(b);
    if AdvanceAll(START, Split(a)).dotted {
      DottedIsNotEmpty(Split(a));
    }
  }

  lemma RelativeBreaks(a: string) returns (g: Graph, l: Location)
    requires !JoinsRelative(a)
    ensures !ComposesAt(g, l, a, "")
  {
    g, l := EmptyEndBreaks(Split(a));
    ComposesOnSegments(g, l, a, "");
  }

  lemma AbsoluteBreaks(a: string) returns (g: Graph, l: Location)
    requires !JoinsAbsolute(a)
    ensures !ComposesAt(g, l, a, "/")
  {
    DottedIsNotEmpty(Split(a));
    g, l := DottedEndBreaks(Split(a));
    assert Split("/") == ["", ""];
    ComposesOnSegments(g, l, a, "/");
  }

  /** The path composes with every second part of a kind, in every graph and from every location. */
  ghost predicate ComposesWithAll(a: string, absolute: bool) {
    forall g, l, b :: Absolute(b) == absolute ==> ComposesAt(g, l, a, b)
  }

  /** A path composes with every relative second part exactly when it joins relative paths. */
  lemma RelativeComposesIff(a: string)
    ensures ComposesWithAll(a, false) <==> JoinsRelative(a)
  {
    if JoinsRelative(a) {
      forall g, l, b | Absolute(b) == false ensures ComposesAt(g, l, a, b) {
        JoinableIff(a, b);
        LookupComposes(g, l, a, b);
      }
    } else {
      var g, l := RelativeBreaks(a);
    }
  }

  /** A path composes with every absolute second part exactly when it joins absolute paths. */
  lemma AbsoluteComposesIff(a: string)
    ensures ComposesWithAll(a, true) <==> JoinsAbsolute(a)
  {
    if JoinsAbsolute(a) {
      forall g, l, b | Absolute(b) == true ensures ComposesAt(g, l, a, b) {
        JoinableIff(a, b);
        LookupComposes(g, l, a, b);
      }
    } else {
      var g, l := AbsoluteBreaks(a);
    }
  }

  // ---- Single pairs of paths -----------------------------------------------------------------------------------

  /** Whether a walk over these segments starts over at the root. */
  predicate Restarts(segments: seq<string>, dotted: bool)
    decreases segments
  {
    segments != [] &&
    var first, rest := segments[0], segments[1..];
    if first == "." || (first == "" && dotted) then Restarts(rest, true)
    else if first == "" then rest != []
    else Restarts(rest, false)
  }

  predicate Deep(l: Location, k: nat) {
    k > 0 ==> l.Child? && l.definition == 0 && Deep(l.parent, k - 1)
  }

  lemma {:induction false} DeeperIsDeep(l: Location, j: nat, k: nat)
    requires j <= k && Deep(l, k)
    ensures Deep(l, j)
  {
    if j > 0 {
      DeeperIsDeep(l.parent, j - 1, k - 1);
    }
  }

  lemma {:induction false} ChainIsDeep(depth: nat, top: nat)
    ensures Deep(Chain(depth, top), depth) && Chain(depth, top).Top() == Root(top)
  {
    if depth > 0 {
      ChainIsDeep(depth - 1, top);
    }
  }

  lemma {:induction false} DeepWalkFinds(names: set<string>, l: Location, segments: seq<string>, dotted: bool)
    requires Named(segments, names) && Deep(l, |segments| + 1) && !Restarts(segments, dotted)
    ensures Walk(Loop(names), l, segments, dotted).Found?
    decreases segments
  {
    if segments != [] {
      var first, rest := segments[0], segments[1..];
      assert Named(rest, names);
      DeeperIsDeep(l, |segments|, |segments| + 1);
      if first == "." || (first == "" && dotted) {
        DeepWalkFinds(names, l, rest, true);
      } else if first == ".." {
        DeepWalkFinds(names, l.Up(), rest, false);
      } else if first != "" {
        assert Loop(names).Entry(0, first) == Some(0);
        DeeperIsDeep(l, |rest|, |segments|);
        DeepWalkFinds(names, Child(first, 0, l), rest, false);
      }
    }
  }

  lemma {:induction false} DeepGoesClear(l: Location, p: Place, a: seq<string>, k: nat)
    requires Deep(l, |a| + k + 1) && !AdvanceAll(p, a).anchored
    ensures Clear(l, p.dotted, a) && Deep(Go(l, p.dotted, a), k + 1) && Go(l, p.dotted, a).Top() == l.Top()
    decreases |a|
  {
    if a != [] {
      var first, rest := a[0], a[1..];
      DeeperIsDeep(l, |rest| + k + 1, |a| + k + 1);
      if first == "." || (first == "" && p.dotted) {
        DeepGoesClear(l, Advance(p, first), rest, k);
      } else if first == "" {
        StaysAnchored(Advance(p, first), rest);
      } else if first == ".." {
        DeepGoesClear(l.Up(), Advance(p, first), rest, k);
      } else {
        DeeperIsDeep(l, |rest| + k, |a| + k + 1);
        DeepGoesClear(Child(first, 0, l), Advance(p, first), rest, k);
      }
    }
  }

  lemma NamedParts(a: seq<string>, b: seq<string>)
    ensures Named(a, SegmentsOf(a + b)) && Named(b, SegmentsOf(a + b))
  {
    forall i | 0 <= i < |a| ensures a[i] in SegmentsOf(a + b) {
      assert (a + b)[i] == a[i];
    }
    forall i | 0 <= i < |b| ensures b[i] in SegmentsOf(a + b) {
      assert (a + b)[|a| + i] == b[i];
    }
  }

  /** Below a root that is no directory, a restart fails where going on succeeds. */
  lemma RelativePairBreaks(a: seq<string>, b: seq<string>) returns (g: Graph, l: Location)
    requires a != [] && b != [] && !AdvanceAll(START, a[..|a| - 1]).anchored
    requires EndsEmpty(START, a) && !IsAbsolute(b) && !Restarts(b, false)
    ensures !SegmentsCompose(g, l, a, b)
  {
    var before, names := a[..|a| - 1], SegmentsOf(a + b);
    l, g := Chain(|before| + |b| + 1, 1), Loop(names);
    ChainIsDeep(|before| + |b| + 1, 1);
    NamedParts(a, b);
    DeepGoesClear(l, START, before, |b|);
    RestartBreaks(names, l, before, b);
    assert a == before + [""];
  }

  lemma RestartBreaks(names: set<string>, l: Location, a: seq<string>, b: seq<string>)
    requires b != [] && Named(a, names) && Named(b, names) && !AdvanceAll(START, a).dotted && !Restarts(b, false)
    requires Clear(l, false, a) && Deep(Go(l, false, a), |b| + 1)
    requires !Loop(names).IsDirectory(Go(l, false, a).Top().definition)
    ensures !SegmentsCompose(Loop(names), l, a + [""], b)
  {
    var r := Go(l, false, a);
    FoundAtEmpty(names, l, a);
    LostPastEmpty(names, l, a, b);
    DeepWalkFinds(names, r, b, false);
    FailsTogether(Loop(names), l, a + [""], r, b);
  }

  lemma FoundAtEmpty(names: set<string>, l: Location, a: seq<string>)
    requires Named(a, names) && !AdvanceAll(START, a).dotted && Clear(l, false, a)
    requires Go(l, false, a).definition == 0
    ensures Required(Walk(Loop(names), l, a + [""], false)) == Found(Go(l, false, a))
  {
    LoopWalks(names, l, START, a, [""]);
    assert [""][1..] == [];
  }

  lemma LostPastEmpty(names: set<string>, l: Location, a: seq<string>, b: seq<string>)
    requires b != [] && Named(a, names) && !AdvanceAll(START, a).dotted && Clear(l, false, a)
    requires Go(l, false, a).definition == 0 && !Loop(names).IsDirectory(Go(l, false, a).Top().definition)
    ensures Required(Walk(Loop(names), l, a + [""] + b, false)) == NotADirectory
  {
    LoopWalks(names, l, START, a, [""] + b);
    assert a + [""] + b == a + ([""] + b);
    EmptyLast(Loop(names), Go(l, false, a), b);
  }

  lemma FailsTogether(g: Graph, l: Location, a: seq<string>, r: Location, b: seq<string>)
    requires Required(Walk(g, l, a, false)) == Found(r) && Walk(g, r, b, false).Found?
    requires Required(Walk(g, l, a + b, false)) == NotADirectory
    ensures !SegmentsCompose(g, l, a, b)
  {
  }

  lemma EmptyLast(g: Graph, r: Location, b: seq<string>)
    requires g.IsDirectory(r.definition) && !g.IsDirectory(r.Top().definition) && b != []
    ensures Walk(g, r, [""], false) == Found(r) && Walk(g, r, [""] + b, false) == NotADirectory
  {
    assert [""][1..] == [] && ([""] + b)[1..] == b;
  }

  lemma DottedLast(g: Graph, r: Location, last: string, dotted: bool, b: seq<string>)
    requires g.IsDirectory(r.definition) && (last == "." || (last == "" && dotted)) && IsAbsolute(b)
    ensures Walk(g, r, [last], dotted) == Found(r)
    ensures Walk(g, r, [last] + b, dotted) == Walk(g, r, b[1..], true)
    ensures Walk(g, r, b, false) == Walk(g, r.Top(), b[1..], false)
  {
    assert ([last] + b)[1..] == b && [last][1..] == [];
    assert Walk(g, r, b, true) == Walk(g, r, b[1..], true);
  }

  lemma AbsolutePairBreaks(a: seq<string>, b: seq<string>) returns (g: Graph, l: Location)
    requires a != [] && !AdvanceAll(START, a).anchored && AdvanceAll(START, a).dotted
    requires IsAbsolute(b) && !Restarts(b[1..], true)
    ensures !SegmentsCompose(g, l, a, b)
  {
    var before, last, names := a[..|a| - 1], a[|a| - 1], SegmentsOf(a + b);
    assert a == before + [last] && a + b == before + ([last] + b);
    AdvanceSnoc(START, before, last);
    l, g := Chain(|before| + |b| + 1, 1), Loop(names);
    ChainIsDeep(|before| + |b| + 1, 1);
    NamedParts(a, b);
    DeepGoesClear(l, START, before, |b|);
    var r := Go(l, false, before);
    LoopWalks(names, l, START, before, [last]);
    LoopWalks(names, l, START, before, [last] + b);
    DottedLast(g, r, last, AdvanceAll(START, before).dotted, b);
    DeeperIsDeep(r, |b|, |b| + 1);
    DeepWalkFinds(names, r, b[1..], true);
  }

  /** A pair of a relative path and one that has no restart of its own past its first segment. */
  predicate Simple(a: seq<string>, b: seq<string>)
    requires a != []
  {
    !AdvanceAll(START, a[..|a| - 1]).anchored &&
    if IsAbsolute(b) then !Restarts(b[1..], true) else !Restarts(b, false)
  }

  /** Such a pair composes in every graph and from every location exactly when it joins. */
  lemma PairComposesIff(a: string, b: string)
    requires Simple(Split(a), Split(b))
    ensures (forall g, l :: ComposesAt(g, l, a, b)) <==> Joinable(a, b)
  {
    var x, y := Split(a), Split(b);
    if Joinable(a, b) {
      forall g, l ensures ComposesAt(g, l, a, b) {
        LookupComposes(g, l, a, b);
      }
    } else if EndsEmpty(START, x) {
      var g, l := RelativePairBreaks(x, y);
      ComposesOnSegments(g, l, a, b);
    } else {
      AdvanceSnoc(START, x[..|x| - 1], x[|x| - 1]);
      assert x == x[..|x| - 1] + [x[|x| - 1]];
      var g, l := AbsolutePairBreaks(x, y);
      ComposesOnSegments(g, l, a, b);
    }
  }

  lemma OneSegment(x: string, dotted: bool)
    requires Name(x)
    ensures Split(x) == [x] && !Restarts([x], dotted) && AdvanceAll(START, [x]) == Place(false, 1, false)
  {
    SplitPlain(x);
    assert [x][1..] == [];
  }

  /** A trailing slash breaks the composition. */
  lemma TrailingSlashBreaks(x: string, y: string)
    requires Name(x) && Name(y)
    ensures !(forall g, l :: ComposesAt(g, l, x + "/", y))
  {
    OneSegment(x, false);
    OneSegment(y, false);
    SplitAppend(x, "");
    assert x + "/" + "" == x + "/" && [x] + [""] == [x, ""] && [x, ""][..1] == [x];
    PairComposesIff(x + "/", y);
  }

  /** So does a dot before an absolute path. */
  lemma DotBreaks(y: string)
    requires Name(y)
    ensures !(forall g, l :: ComposesAt(g, l, ".", "/" + y))
  {
    OneSegment(y, true);
    SplitPlain(".");
    SplitAppend("", y);
    assert "" + "/" + y == "/" + y;
    DotDoesNotJoin(y);
    PairBreaks(".", "/" + y, ["."], ["", y]);
  }

  lemma PairBreaks(a: string, b: string, x: seq<string>, y: seq<string>)
    requires x == Split(a) && y == Split(b) && Simple(x, y) && !Joins(START, x, y)
    ensures !(forall g, l :: ComposesAt(g, l, a, b))
  {
    PairComposesIff(a, b);
  }

  lemma DotDoesNotJoin(y: string)
    requires Name(y) && !Restarts([y], true)
    ensures [""] + [y] == ["", y] && Simple(["."], ["", y]) && !Joins(START, ["."], ["", y])
  {
    assert ["", y][1..] == [y] && ["."][1..] == [] && ["."][..0] == [];
    assert AdvanceAll(START, ["."]) == Place(false, 0, true);
  }

  /**
   Past an absolute first part a pair may compose without joining: `/x/.` and `/..` both lead back to the root.  Whether
   one such pair composes depends on the names its parts share, so the exact conditions above are over all second parts.
   */
  lemma ComposesWithoutJoining(g: Graph, l: Location, x: string)
    requires Name(x)
    ensures !Joins(START, ["", x, "."], ["", ".."]) && SegmentsCompose(g, l, ["", x, "."], ["", ".."])
  {
    var a, b := ["", x, "."], ["", ".."];
    assert a[1..] == [x, "."] && [x, "."][1..] == ["."] && ["."][1..] == [] && a[..2] == ["", x] && ["", x][1..] == [x];
    assert [x][1..] == [];
    assert AdvanceAll(START, a) == AdvanceAll(Place(true, 0, false), [x, "."]);
    assert AdvanceAll(Place(true, 0, false), [x, "."]) == AdvanceAll(Place(true, 1, false), ["."]);
    var ab := a + b;
    assert ab == ["", x, ".", "", ".."] && ab[1..] == [x, ".", "", ".."] && ab[1..][1..] == [".", "", ".."];
    TopHasNoNames(l);
    var entry := g.Entry(l.Top().definition, x);
    if entry.Some? && g.IsDirectory(l.Top().definition) {
      UpAgain(g, Child(x, entry.value, l.Top()));
    }
  }

  lemma UpAgain(g: Graph, sub: Location)
    requires sub.Child? && sub.parent.Root? && g.IsDirectory(sub.parent.definition)
    ensures Walk(g, sub, ["."], false) == if g.IsDirectory(sub.definition) then Found(sub) else NotADirectory
    ensures g.IsDirectory(sub.definition) ==>
              && Walk(g, sub, [".", "", ".."], false) == Found(sub.parent)
              && Walk(g, sub, ["", ".."], false) == Found(sub.parent)
    ensures !g.IsDirectory(sub.definition) ==> Walk(g, sub, [".", "", ".."], false) == NotADirectory
  {
    assert [".", "", ".."][1..] == ["", ".."] && ["", ".."][1..] == [".."] && [".."][1..] == [] && ["."][1..] == [];
    assert sub.parent.Up() == sub.parent;
    assert sub.Top() == sub.parent;
    assert Walk(g, sub.parent, [".."], false) == Walk(g, sub.parent, [], false);
    if g.IsDirectory(sub.definition) {
      assert Walk(g, sub, ["", ".."], false) == Walk(g, sub.parent, [".."], false);
    }
    assert Walk(g, sub, ["", ".."], true) == Walk(g, sub, [".."], true);
  }
}
