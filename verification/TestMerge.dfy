/** What merging test runs promises (`TestDescriptor.merge` in packages/testing/src/test-descriptor.ts). */
module TestMerge {
  import opened Options
  import opened TestDescriptors

  // ---- Looking tests up by the names on their path -------------------------------------------------------------

  function Lookup(members: seq<Descriptor>, name: string): Option<Descriptor> {
    var at := Find(members, name);
    if at.Some? then Some(members[at.value]) else None
  }

  function At(d: Descriptor, path: seq<string>): Option<Descriptor>
    decreases path
  {
    if path == [] then Some(d)
    else if d.members.Absent? then None
    else
      var member := Lookup(d.members.list, path[0]);
      if member.None? then None else At(member.value, path[1..])
  }

  /** A descriptor without its members. */
  function Flat(d: Descriptor): Descriptor { d.(members := Absent) }

  function Disabled(d: Descriptor): Descriptor { d.(isDisabled := Some(true)) }

  // ---- Records -------------------------------------------------------------------------------------------------

  lemma FindFirst(record: seq<Descriptor>, i: nat)
    requires Distinct(record) && i < |record|
    ensures Find(record, record[i].name) == Some(i)
  {
    var at := Find(record, record[i].name);
    assert at.Some? && record[at.value].name == record[i].name;
  }

  lemma {:induction false} IndexOfDistinct(members: seq<Descriptor>)
    requires Distinct(members)
    ensures Index(members) == members
  {
    if members != [] {
      var before, last := members[..|members| - 1], members[|members| - 1];
      IndexOfDistinct(before);
      assert Find(before, last.name).None? by {
        assert forall i :: 0 <= i < |before| ==> before[i] == members[i] && before[i].name != last.name;
      }
      assert members == before + [last];
    }
  }

  lemma LookupRemoved(record: seq<Descriptor>, at: nat, name: string)
    requires Distinct(record) && at < |record|
    ensures Distinct(Remove(record, at))
    ensures name != record[at].name ==> Lookup(Remove(record, at), name) == Lookup(record, name)
    ensures Lookup(Remove(record, at), record[at].name).None?
  {
    var rest := Remove(record, at);
    forall i | 0 <= i < |rest| ensures rest[i] == record[if i < at then i else i + 1] {
    }
    var found := Find(record, name);
    if found.Some? && found.value != at {
      var i := if found.value < at then found.value else found.value - 1;
      assert rest[i] == record[found.value];
      FindFirst(rest, i);
    }
  }

  lemma LookupCons(d: Descriptor, rest: seq<Descriptor>, name: string)
    ensures Lookup([d] + rest, name) == if d.name == name then Some(d) else Lookup(rest, name)
  {
    assert ([d] + rest)[1..] == rest;
  }

  /** A merged list holds, under each name, the merge of what both lists hold under it. */
  lemma {:induction false} MergedLookup(previous: seq<Descriptor>, record: seq<Descriptor>, name: string)
    requires Distinct(record)
    ensures Lookup(MergeMembers(previous, record), name) ==
            match (Lookup(previous, name), Lookup(record, name))
            case (None, update) => update
            case (Some(old_), None) => Some(Disabled(old_))
            case (Some(old_), Some(update)) => Some(Merge(old_, update))
    decreases |previous|
  {
    if previous != [] {
      var first, rest := previous[0], previous[1..];
      var at := Find(record, first.name);
      assert previous == [first] + rest;
      LookupCons(first, rest, name);
      if at.None? {
        LookupCons(Disabled(first), MergeMembers(rest, record), name);
        MergedLookup(rest, record, name);
      } else {
        var left := Remove(record, at.value);
        LookupRemoved(record, at.value, name);
        LookupCons(Merge(first, record[at.value]), MergeMembers(rest, left), name);
        MergedLookup(rest, left, name);
      }
    }
  }

  /** The last member with the given name; siblings before it with the same name are shadowed. */
  function LastNamed(members: seq<Descriptor>, name: string): Option<Descriptor> {
    if members == [] then None
    else if members[|members| - 1].name == name then Some(members[|members| - 1])
    else LastNamed(members[..|members| - 1], name)
  }

  lemma {:induction false} IndexLookup(members: seq<Descriptor>, name: string)
    ensures Distinct(Index(members)) && Lookup(Index(members), name) == LastNamed(members, name)
  {
    if members != [] {
      var before, last := members[..|members| - 1], members[|members| - 1];
      IndexLookup(before, name);
      AssignLookup(Index(before), last, name);
    }
  }

  lemma AssignLookup(record: seq<Descriptor>, d: Descriptor, name: string)
    requires Distinct(record)
    ensures Distinct(Assign(record, d))
    ensures Lookup(Assign(record, d), name) == if d.name == name then Some(d) else Lookup(record, name)
  {
    var record' := Assign(record, d);
    var at := Find(record, name);
    if d.name == name {
      FindFirst(record', if at.Some? then at.value else |record|);
    } else if at.Some? {
      assert record'[at.value] == record[at.value];
      FindFirst(record', at.value);
    }
  }

  // ---- Order ---------------------------------------------------------------------------------------------------

  /** Member `i` is the first of its name. */
  predicate First(members: seq<Descriptor>, i: nat) {
    i < |members| && Find(members, members[i].name) == Some(i)
  }

  /** The names of the members, each where it first occurs. */
  function FirstNames(members: seq<Descriptor>): seq<string> {
    if members == [] then []
    else
      var before, name := FirstNames(members[..|members| - 1]), members[|members| - 1].name;
      if name in before then before else before + [name]
  }

  function Names(members: seq<Descriptor>): seq<string> {
    seq(|members|, i requires 0 <= i < |members| => members[i].name)
  }

  /** The names that none of the members has, in order. */
  function OtherNames(names: seq<string>, members: seq<Descriptor>): seq<string> {
    if names == [] then []
    else (if Find(members, names[0]).None? then [names[0]] else []) + OtherNames(names[1..], members)
  }

  lemma AssignNames(record: seq<Descriptor>, d: Descriptor)
    ensures Names(Assign(record, d)) == if d.name in Names(record) then Names(record) else Names(record) + [d.name]
  {
    var at := Find(record, d.name);
    if at.Some? {
      assert Names(record)[at.value] == d.name;
    }
  }

  /** The index of the updates lists each name once, where it first occurs. */
  lemma {:induction false} IndexNames(members: seq<Descriptor>)
    ensures Names(Index(members)) == FirstNames(members)
  {
    if members != [] {
      IndexNames(members[..|members| - 1]);
      AssignNames(Index(members[..|members| - 1]), members[|members| - 1]);
    }
  }

  /** What stands at a place of the previous list after a merge. */
  function PlaceAfter(previous: seq<Descriptor>, record: seq<Descriptor>, i: nat): Descriptor
    requires i < |previous|
  {
    var update := Lookup(record, previous[i].name);
    if First(previous, i) && update.Some? then Merge(previous[i], update.value) else Disabled(previous[i])
  }

  lemma FirstInRest(members: seq<Descriptor>, i: nat)
    requires 0 < i < |members|
    ensures First(members, i) <==> First(members[1..], i - 1) && members[i].name != members[0].name
  {
  }

  /** What is left of the record once the update of the name, if there is one, has been merged. */
  function Left(record: seq<Descriptor>, name: string): seq<Descriptor> {
    var at := Find(record, name);
    if at.Some? then Remove(record, at.value) else record
  }

  lemma MergeStep(previous: seq<Descriptor>, record: seq<Descriptor>)
    requires Distinct(record) && previous != []
    ensures var left := Left(record, previous[0].name);
            && Distinct(left)
            && MergeMembers(previous, record) ==
               [PlaceAfter(previous, record, 0)] + MergeMembers(previous[1..], left)
  {
    var at := Find(record, previous[0].name);
    assert First(previous, 0);
    if at.Some? {
      LookupRemoved(record, at.value, previous[0].name);
    }
  }

  lemma PlaceInRest(previous: seq<Descriptor>, record: seq<Descriptor>, i: nat)
    requires Distinct(record) && 0 < i < |previous|
    ensures PlaceAfter(previous[1..], Left(record, previous[0].name), i - 1) == PlaceAfter(previous, record, i)
  {
    var at := Find(record, previous[0].name);
    if at.Some? {
      LookupRemoved(record, at.value, previous[i].name);
    }
    FirstInRest(previous, i);
  }

  lemma {:induction false} PreviousPlaces(previous: seq<Descriptor>, record: seq<Descriptor>, i: nat)
    requires Distinct(record) && i < |previous|
    ensures |MergeMembers(previous, record)| >= |previous|
    ensures MergeMembers(previous, record)[i] == PlaceAfter(previous, record, i)
    decreases |previous|
  {
    var left := Left(record, previous[0].name);
    MergeStep(previous, record);
    if |previous| > 1 {
      PreviousPlaces(previous[1..], left, if i > 0 then i - 1 else 0);
      if i > 0 {
        PlaceInRest(previous, record, i);
      }
    }
  }

  lemma OtherNamesDropped(before: seq<string>, name: string, after: seq<string>, members: seq<Descriptor>)
    requires members != [] && members[0].name == name && name !in before && name !in after
    ensures OtherNames(before + after, members[1..]) == OtherNames(before + ([name] + after), members)
  {
    OtherNamesSame(before, members, name);
    OtherNamesSame(after, members, name);
    OtherNamesAppend(before, after, members[1..]);
    OtherNamesAppend(before, [name] + after, members);
    assert OtherNames([name] + after, members) == OtherNames(after, members) by {
      assert Find(members, name).Some? && ([name] + after)[1..] == after;
    }
  }

  lemma OtherNamesRemoved(record: seq<Descriptor>, at: nat, previous: seq<Descriptor>)
    requires Distinct(record) && at < |record| && previous != [] && previous[0].name == record[at].name
    ensures OtherNames(Names(Remove(record, at)), previous[1..]) == OtherNames(Names(record), previous)
  {
    var before, name, after := Names(record[..at]), record[at].name, Names(record[at + 1..]);
    assert Names(Remove(record, at)) == before + after && Names(record) == before + ([name] + after);
    OtherNamesDropped(before, name, after, previous);
  }

  lemma {:induction false} OtherNamesAppend(a: seq<string>, b: seq<string>, members: seq<Descriptor>)
    ensures OtherNames(a + b, members) == OtherNames(a, members) + OtherNames(b, members)
    decreases |a|
  {
    if a == [] {
      assert a + b == b;
    } else {
      assert (a + b)[1..] == a[1..] + b;
      OtherNamesAppend(a[1..], b, members);
    }
  }

  lemma {:induction false} OtherNamesSame(names: seq<string>, members: seq<Descriptor>, name: string)
    requires members != [] && members[0].name == name && name !in names
    ensures OtherNames(names, members[1..]) == OtherNames(names, members)
    decreases |names|
  {
    if names != [] {
      assert names[0] != name;
      OtherNamesSame(names[1..], members, name);
    }
  }

  lemma LeftNames(previous: seq<Descriptor>, record: seq<Descriptor>)
    requires Distinct(record) && previous != []
    ensures OtherNames(Names(Left(record, previous[0].name)), previous[1..]) == OtherNames(Names(record), previous)
  {
    var at := Find(record, previous[0].name);
    if at.Some? {
      OtherNamesRemoved(record, at.value, previous);
    } else {
      OtherNamesSame(Names(record), previous, previous[0].name);
    }
  }

  lemma {:induction false} RestNames(previous: seq<Descriptor>, record: seq<Descriptor>)
    requires Distinct(record)
    ensures |MergeMembers(previous, record)| >= |previous|
    ensures Names(MergeMembers(previous, record)[|previous|..]) == OtherNames(Names(record), previous)
    decreases |previous|
  {
    var merged := MergeMembers(previous, record);
    if previous == [] {
      AllOtherNames(Names(record));
      assert merged[0..] == record;
    } else {
      var left := Left(record, previous[0].name);
      MergeStep(previous, record);
      LeftNames(previous, record);
      RestNames(previous[1..], left);
      assert merged[|previous|..] == MergeMembers(previous[1..], left)[|previous| - 1..];
    }
  }

  lemma {:induction false} AllOtherNames(names: seq<string>)
    ensures OtherNames(names, []) == names
  {
    if names != [] {
      AllOtherNames(names[1..]);
    }
  }

  /**
   The merged list: every previous member in its place, merged with the last update of its name if it is the first of
   that name and disabled otherwise, and then the names that only the update has, each where it first occurs.
   */
  lemma MergedListIs(previous: seq<Descriptor>, updates: seq<Descriptor>)
    ensures var merged := MergeMembers(previous, Index(updates));
            && |merged| >= |previous|
            && (forall i :: 0 <= i < |previous| ==> merged[i] == PlaceAfter(previous, Index(updates), i))
            && (forall name :: Lookup(Index(updates), name) == LastNamed(updates, name))
            && Names(merged[|previous|..]) == OtherNames(FirstNames(updates), previous)
  {
    IndexLookup(updates, "");
    forall name ensures Lookup(Index(updates), name) == LastNamed(updates, name) {
      IndexLookup(updates, name);
    }
    RestNames(previous, Index(updates));
    IndexNames(updates);
    forall i | 0 <= i < |previous|
      ensures MergeMembers(previous, Index(updates))[i] == PlaceAfter(previous, Index(updates), i)
    {
      PreviousPlaces(previous, Index(updates), i);
    }
  }

  // ---- Paths and results ---------------------------------------------------------------------------------------

  /** The descriptor of the new run that takes part in the merge at `path`. */
  function Counted(previous: Descriptor, updates: Descriptor, path: seq<string>): Option<Descriptor>
    decreases path
  {
    if path == [] then Some(updates)
    else if updates.members.Absent? then None
    else if previous.members.Absent? then At(updates, path)
    else
      var a, b := Lookup(previous.members.list, path[0]), LastNamed(updates.members.list, path[0]);
      if b.None? then None
      else if a.None? then At(b.value, path[1..])
      else Counted(a.value, b.value, path[1..])
  }

  /** The new run lists the siblings of the test at `path` and left the test itself out. */
  predicate Excluded(previous: Descriptor, updates: Descriptor, path: seq<string>) {
    path != [] && Counted(previous, updates, path).None? &&
    var parent := Counted(previous, updates, path[..|path| - 1]);
    parent.Some? && parent.value.members.Present?
  }

  /** What a merge leaves at a path, given what both runs have there. */
  predicate MergedNode(previous: Option<Descriptor>, update: Option<Descriptor>, excluded: bool,
                       merged: Option<Descriptor>)
  {
    match (previous, update)
    case (None, None) => merged.None?
    case (None, Some(b)) => merged.Some? && Flat(merged.value) == Flat(b)
    case (Some(a), None) => merged.Some? && Flat(merged.value) == Flat(if excluded then Disabled(a) else a)
    case (Some(a), Some(b)) => merged.Some? && MergedFrom(a, b, merged.value)
  }

  /** The new run decides every field, except that a result it does not report is taken from before. */
  predicate MergedFrom(previous: Descriptor, update: Descriptor, merged: Descriptor) {
    && merged.name == update.name && merged.kind == update.kind && merged.isDisabled == update.isDisabled
    && merged.pics == update.pics && merged.path == update.path && merged.details == update.details
    && merged.passed == (if update.passed.Some? then update.passed else previous.passed)
    && merged.durationMs == (if update.durationMs.Some? then update.durationMs else previous.durationMs)
    && merged.runAt == (if update.runAt.Some? then update.runAt else previous.runAt)
  }

  lemma ExcludedBelow(previous: Descriptor, updates: Descriptor, path: seq<string>)
    requires |path| > 1 && updates.members.Present? && previous.members.Present?
    requires Lookup(previous.members.list, path[0]).Some?
    ensures Excluded(previous, updates, path) <==>
            LastNamed(updates.members.list, path[0]).Some? &&
            Excluded(Lookup(previous.members.list, path[0]).value, LastNamed(updates.members.list, path[0]).value,
                     path[1..])
  {
    assert path[..|path| - 1][0] == path[0] && path[..|path| - 1][1..] == path[1..][..|path[1..]| - 1];
  }

  lemma AtDisabled(d: Descriptor, path: seq<string>)
    ensures At(Disabled(d), path) == if path == [] then Some(Disabled(d)) else At(d, path)
  {
  }

  /** Merging works path by path: paths of either run stay, results of the new run win where it has any. */
  lemma {:induction false} MergeAt(previous: Descriptor, updates: Descriptor, path: seq<string>)
    ensures MergedNode(At(previous, path), Counted(previous, updates, path), Excluded(previous, updates, path),
                       At(Merge(previous, updates), path))
    decreases path
  {
    if path == [] {
    } else if previous.members.Present? && updates.members.Present? {
      var ps, us := previous.members.list, updates.members.list;
      var a, b := Lookup(ps, path[0]), LastNamed(us, path[0]);
      var merged := Lookup(MergeMembers(ps, Index(us)), path[0]);
      IndexLookup(us, path[0]);
      MergedLookup(ps, Index(us), path[0]);
      assert At(Merge(previous, updates), path) == if merged.Some? then At(merged.value, path[1..]) else None;
      if |path| > 1 && a.Some? {
        ExcludedBelow(previous, updates, path);
      } else {
        assert |path| == 1 ==> path[..0] == [];
      }
      if a.Some? && b.Some? {
        MergeAt(a.value, b.value, path[1..]);
      } else if a.Some? {
        AtDisabled(a.value, path[1..]);
      }
    } else if updates.members.Absent? {
      assert path[..|path| - 1] == [] || Counted(previous, updates, path[..|path| - 1]).None?;
    }
  }

  /** When no siblings share a name the whole of the new run takes part. */
  lemma {:induction false} UniqueCountsAll(previous: Descriptor, updates: Descriptor, path: seq<string>)
    requires Unique(updates)
    ensures Counted(previous, updates, path) == At(updates, path)
    decreases path
  {
    if path != [] && updates.members.Present? && previous.members.Present? {
      IndexOfDistinct(updates.members.list);
      IndexLookup(updates.members.list, path[0]);
      var a, b := Lookup(previous.members.list, path[0]), LastNamed(updates.members.list, path[0]);
      if a.Some? && b.Some? {
        UniqueCountsAll(a.value, b.value, path[1..]);
      }
    }
  }

  /** The paths after a merge are exactly those of both runs. */
  lemma PathsUnite(previous: Descriptor, updates: Descriptor, path: seq<string>)
    requires Unique(updates)
    ensures At(Merge(previous, updates), path).Some? <==> At(previous, path).Some? || At(updates, path).Some?
  {
    MergeAt(previous, updates, path);
    UniqueCountsAll(previous, updates, path);
  }

  // ---- When a path of the new run is lost ----------------------------------------------------------------------

  function Under(d: Descriptor, name: string): Option<Descriptor> {
    if d.members.Absent? then None else Lookup(d.members.list, name)
  }

  lemma AtUnder(d: Descriptor, path: seq<string>)
    requires path != []
    ensures At(d, path) == if Under(d, path[0]).None? then None else At(Under(d, path[0]).value, path[1..])
  {
  }

  /** The member of `b` that counts under a name when `b` is merged into `a`. */
  function Update(a: Descriptor, b: Descriptor, name: string): Option<Descriptor> {
    if a.members.Absent? || b.members.Absent? then Under(b, name) else LastNamed(b.members.list, name)
  }

  lemma UnderMerge(a: Descriptor, b: Descriptor, name: string)
    ensures var merged := Under(Merge(a, b), name);
            match (Under(a, name), Update(a, b, name))
            case (None, update) => merged == update
            case (Some(old_), None) => merged == Some(old_) || merged == Some(Disabled(old_))
            case (Some(old_), Some(update)) => merged == Some(Merge(old_, update))
  {
    if a.members.Present? && b.members.Present? {
      IndexLookup(b.members.list, name);
      MergedLookup(a.members.list, Index(b.members.list), name);
    }
  }

  /** Every path of `f` is a path of `t`. */
  predicate Within(f: Descriptor, t: Descriptor)
    decreases f
  {
    f.members.Present? ==>
      forall i :: 0 <= i < |f.members.list| && First(f.members.list, i) ==>
        Under(t, f.members.list[i].name).Some? && Within(f.members.list[i], Under(t, f.members.list[i].name).value)
  }

  /**
   Every path of `f` is kept when `b` is merged into `a`: below a name that only one of the two has, that one must have
   the paths of `f`; where both have the name, its last bearer in `b` counts.
   */
  predicate Covered(f: Descriptor, a: Descriptor, b: Descriptor)
    decreases f
  {
    f.members.Present? ==>
      forall i :: 0 <= i < |f.members.list| && First(f.members.list, i) ==>
        var member := f.members.list[i];
        match (Under(a, member.name), Update(a, b, member.name))
        case (None, None) => false
        case (Some(old_), None) => Within(member, old_)
        case (None, Some(update)) => Within(member, update)
        case (Some(old_), Some(update)) => Covered(member, old_, update)
  }

  lemma LookupIsFirst(members: seq<Descriptor>, name: string)
    requires Lookup(members, name).Some?
    ensures First(members, Find(members, name).value)
  {
  }

  lemma {:induction false} WithinAt(f: Descriptor, t: Descriptor, path: seq<string>)
    requires Within(f, t) && At(f, path).Some?
    ensures At(t, path).Some?
    decreases path
  {
    if path != [] {
      AtUnder(f, path);
      AtUnder(t, path);
      LookupIsFirst(f.members.list, path[0]);
      WithinAt(Under(f, path[0]).value, Under(t, path[0]).value, path[1..]);
    }
  }

  lemma {:induction false} NotWithin(f: Descriptor, t: Descriptor) returns (path: seq<string>)
    requires !Within(f, t)
    ensures At(f, path).Some? && At(t, path).None?
    decreases f
  {
    var members := f.members.list;
    var i :| 0 <= i < |members| && First(members, i) &&
             !(Under(t, members[i].name).Some? && Within(members[i], Under(t, members[i].name).value));
    var below := [];
    if Under(t, members[i].name).Some? {
      below := NotWithin(members[i], Under(t, members[i].name).value);
    }
    path := [members[i].name] + below;
    assert path[1..] == below;
    AtUnder(f, path);
    AtUnder(t, path);
  }

  lemma {:induction false} CoveredAt(f: Descriptor, a: Descriptor, b: Descriptor, path: seq<string>)
    requires Covered(f, a, b) && At(f, path).Some?
    ensures At(Merge(a, b), path).Some?
    decreases path
  {
    if path != [] {
      var name, rest := path[0], path[1..];
      AtUnder(f, path);
      AtUnder(Merge(a, b), path);
      LookupIsFirst(f.members.list, name);
      UnderMerge(a, b, name);
      var member := Under(f, name).value;
      match (Under(a, name), Update(a, b, name))
      case (Some(old_), None) =>
        WithinAt(member, old_, rest);
        AtDisabled(old_, rest);
      case (None, Some(update)) => WithinAt(member, update, rest);
      case (Some(old_), Some(update)) => CoveredAt(member, old_, update, rest);
    }
  }

  /** Where a member of `f` is not kept, some path below it is not. */
  lemma {:induction false} NotCoveredBelow(member: Descriptor, a: Descriptor, b: Descriptor)
      returns (below: seq<string>)
    requires match (Under(a, member.name), Update(a, b, member.name))
             case (None, None) => true
             case (Some(old_), None) => !Within(member, old_)
             case (None, Some(update)) => !Within(member, update)
             case (Some(old_), Some(update)) => !Covered(member, old_, update)
    ensures At(member, below).Some? && At(Merge(a, b), [member.name] + below).None?
    decreases member, 1
  {
    below := [];
    UnderMerge(a, b, member.name);
    match (Under(a, member.name), Update(a, b, member.name)) {
      case (None, None) =>
      case (Some(old_), None) =>
        below := NotWithin(member, old_);
        AtDisabled(old_, below);
      case (None, Some(update)) => below := NotWithin(member, update);
      case (Some(old_), Some(update)) => below := NotCovered(member, old_, update);
    }
    assert ([member.name] + below)[1..] == below;
    AtUnder(Merge(a, b), [member.name] + below);
  }

  lemma {:induction false} NotCovered(f: Descriptor, a: Descriptor, b: Descriptor) returns (path: seq<string>)
    requires !Covered(f, a, b)
    ensures At(f, path).Some? && At(Merge(a, b), path).None?
    decreases f, 0
  {
    var members := f.members.list;
    var i :| 0 <= i < |members| && First(members, i) &&
             match (Under(a, members[i].name), Update(a, b, members[i].name))
             case (None, None) => true
             case (Some(old_), None) => !Within(members[i], old_)
             case (None, Some(update)) => !Within(members[i], update)
             case (Some(old_), Some(update)) => !Covered(members[i], old_, update);
    var below := NotCoveredBelow(members[i], a, b);
    path := [members[i].name] + below;
    assert path[1..] == below;
    AtUnder(f, path);
  }

  /** No path of the new run is lost if and only if the run is covered by the previous tree and by itself. */
  lemma NoPathLostIff(previous: Descriptor, updates: Descriptor)
    ensures (forall path :: At(updates, path).Some? ==> At(Merge(previous, updates), path).Some?) <==>
            Covered(updates, previous, updates)
  {
    if Covered(updates, previous, updates) {
      forall path | At(updates, path).Some? ensures At(Merge(previous, updates), path).Some? {
        CoveredAt(updates, previous, updates, path);
      }
    } else {
      var path := NotCovered(updates, previous, updates);
    }
  }

  /** No path of the previous tree is ever lost. */
  lemma PreviousPathsStay(previous: Descriptor, updates: Descriptor, path: seq<string>)
    requires At(previous, path).Some?
    ensures At(Merge(previous, updates), path).Some?
  {
    MergeAt(previous, updates, path);
  }

  function Bare(name: string, members: Members): Descriptor {
    Descriptor(name, Suite, members, None, None, None, None, None, None, map[])
  }

  /** With two siblings of the same name in the new run, the tests of the earlier one are lost. */
  lemma ShadowedSiblingIsLost()
    ensures var inner := (x: string) => Bare("a", Present([Bare(x, Absent)]));
            var updates := Bare("r", Present([inner("x"), inner("y")]));
            && !Unique(updates) && At(updates, ["a", "x"]).Some?
            && At(Merge(Bare("r", Present([])), updates), ["a", "x"]).None?
  {
    var first, second := Bare("a", Present([Bare("x", Absent)])), Bare("a", Present([Bare("y", Absent)]));
    var updates := Bare("r", Present([first, second]));
    var previous := Bare("r", Present([]));
    assert updates.members.list[0].name == updates.members.list[1].name;
    assert ["a", "x"][1..] == ["x"] && ["x"][1..] == [];
    assert Lookup(updates.members.list, "a") == Some(first);
    assert Lookup(first.members.list, "x") == Some(Bare("x", Absent));
    assert LastNamed(updates.members.list, "a") == Some(second);
    assert Lookup(second.members.list, "x") == None;
    MergeAt(previous, updates, ["a", "x"]);
  }

  // ---- Folding runs --------------------------------------------------------------------------------------------

  /** The tree accumulated over several runs, oldest first. */
  function MergeAll(runs: seq<Descriptor>): Descriptor
    requires runs != []
  {
    if |runs| == 1 then runs[0] else Merge(MergeAll(runs[..|runs| - 1]), runs[|runs| - 1])
  }

  predicate Appears(runs: seq<Descriptor>, path: seq<string>) {
    exists i :: 0 <= i < |runs| && At(runs[i], path).Some?
  }

  /** The result field of the last run that has the test and defines the field. */
  function LastDefined<T>(runs: seq<Descriptor>, path: seq<string>, field: Descriptor -> Option<T>): Option<T> {
    if runs == [] then None
    else
      var before, last := LastDefined(runs[..|runs| - 1], path, field), At(runs[|runs| - 1], path);
      if last.Some? && field(last.value).Some? then field(last.value) else before
  }

  /** The test as the last run that has it describes it. */
  function LastHaving(runs: seq<Descriptor>, path: seq<string>): Option<Descriptor> {
    if runs == [] then None
    else
      var last := At(runs[|runs| - 1], path);
      if last.Some? then last else LastHaving(runs[..|runs| - 1], path)
  }

  /** The run lists the siblings of the test and leaves the test itself out. */
  predicate LeavesOut(run: Descriptor, path: seq<string>) {
    && path != [] && At(run, path).None?
    && At(run, path[..|path| - 1]).Some? && At(run, path[..|path| - 1]).value.members.Present?
  }

  /** A test is disabled by a later run that leaves it out, and otherwise as the last run that has it says. */
  function DisabledAfter(runs: seq<Descriptor>, path: seq<string>): Option<bool> {
    if runs == [] then None
    else
      var last := runs[|runs| - 1];
      if At(last, path).Some? then At(last, path).value.isDisabled
      else if LeavesOut(last, path) then Some(true)
      else DisabledAfter(runs[..|runs| - 1], path)
  }

  predicate DescribedBy(d: Descriptor, last: Option<Descriptor>) {
    && last.Some? && d.name == last.value.name && d.kind == last.value.kind && d.pics == last.value.pics
    && d.path == last.value.path && d.details == last.value.details
  }

  lemma ExcludedIsLeftOut(previous: Descriptor, updates: Descriptor, path: seq<string>)
    requires Unique(updates)
    ensures Excluded(previous, updates, path) <==> LeavesOut(updates, path)
  {
    UniqueCountsAll(previous, updates, path);
    if path != [] {
      UniqueCountsAll(previous, updates, path[..|path| - 1]);
    }
  }

  /** The last run decides what a test is, and whether it is disabled. */
  lemma {:induction false} LastRunDescribes(runs: seq<Descriptor>, path: seq<string>)
    requires runs != [] && (forall i :: 0 <= i < |runs| ==> Unique(runs[i])) && At(MergeAll(runs), path).Some?
    ensures var d := At(MergeAll(runs), path).value;
            DescribedBy(d, LastHaving(runs, path)) && d.isDisabled == DisabledAfter(runs, path)
  {
    var before, last := runs[..|runs| - 1], runs[|runs| - 1];
    if |runs| > 1 {
      MergeAt(MergeAll(before), last, path);
      UniqueCountsAll(MergeAll(before), last, path);
      ExcludedIsLeftOut(MergeAll(before), last, path);
      if At(last, path).None? {
        LastRunDescribes(before, path);
      }
    }
  }

  /** No run loses a test, and every test keeps the last result any run reported for it. */
  lemma {:induction false} RunsAccumulate(runs: seq<Descriptor>, path: seq<string>)
    requires runs != [] && forall i :: 0 <= i < |runs| ==> Unique(runs[i])
    ensures At(MergeAll(runs), path).Some? <==> Appears(runs, path)
    ensures At(MergeAll(runs), path).Some? ==>
              var d := At(MergeAll(runs), path).value;
              DescribedBy(d, LastHaving(runs, path)) && d.isDisabled == DisabledAfter(runs, path)
    ensures At(MergeAll(runs), path).Some? ==>
              var d := At(MergeAll(runs), path).value;
              && d.passed == LastDefined(runs, path, (x: Descriptor) => x.passed)
              && d.durationMs == LastDefined(runs, path, (x: Descriptor) => x.durationMs)
              && d.runAt == LastDefined(runs, path, (x: Descriptor) => x.runAt)
  {
    var before, last := runs[..|runs| - 1], runs[|runs| - 1];
    AppearsSnoc(runs, path);
    if At(MergeAll(runs), path).Some? {
      LastRunDescribes(runs, path);
    }
    if |runs| > 1 {
      RunsAccumulate(before, path);
      MergeAt(MergeAll(before), last, path);
      UniqueCountsAll(MergeAll(before), last, path);
      NeverDefined(before, path, (x: Descriptor) => x.passed);
      NeverDefined(before, path, (x: Descriptor) => x.durationMs);
      NeverDefined(before, path, (x: Descriptor) => x.runAt);
    } else {
      assert before == [];
    }
  }

  lemma AppearsSnoc(runs: seq<Descriptor>, path: seq<string>)
    requires runs != []
    ensures Appears(runs, path) <==>
            Appears(runs[..|runs| - 1], path) || At(runs[|runs| - 1], path).Some?
  {
    var before := runs[..|runs| - 1];
    if Appears(before, path) {
      var i :| 0 <= i < |before| && At(before[i], path).Some?;
      assert At(runs[i], path).Some?;
    }
    if Appears(runs, path) {
      var i :| 0 <= i < |runs| && At(runs[i], path).Some?;
      assert i < |before| ==> before[i] == runs[i];
    }
  }

  lemma {:induction false} NeverDefined<T>(runs: seq<Descriptor>, path: seq<string>, field: Descriptor -> Option<T>)
    ensures !Appears(runs, path) ==> LastDefined(runs, path, field).None?
  {
    if runs != [] {
      AppearsSnoc(runs, path);
      NeverDefined(runs[..|runs| - 1], path, field);
    }
  }

  // ---- Merging the same run again ------------------------------------------------------------------------------

  lemma {:induction false} MergeWithSelf(d: Descriptor)
    requires Unique(d)
    ensures Merge(d, d) == d
    decreases d, 1
  {
    if d.members.Present? {
      IndexOfDistinct(d.members.list);
      MergeMembersWithSelf(d.members.list);
    }
  }

  lemma {:induction false} MergeMembersWithSelf(members: seq<Descriptor>)
    requires AllUnique(members)
    ensures MergeMembers(members, members) == members
    decreases members, 0
  {
    if members != [] {
      assert Find(members, members[0].name) == Some(0);
      assert Remove(members, 0) == members[1..];
      MergeWithSelf(members[0]);
      MergeMembersWithSelf(members[1..]);
    }
  }

  /** Merging a run into a tree it has been merged into changes nothing: fields, flags, order, at any depth. */
  lemma {:induction false} MergeIdempotent(previous: Descriptor, updates: Descriptor)
    requires Unique(updates)
    ensures Merge(Merge(previous, updates), updates) == Merge(previous, updates)
    decreases previous, 1
  {
    if updates.members.Present? {
      IndexOfDistinct(updates.members.list);
      if previous.members.Present? {
        MergeMembersIdempotent(previous.members.list, updates.members.list);
      } else {
        MergeMembersWithSelf(updates.members.list);
      }
    }
  }

  lemma {:induction false} MergeMembersIdempotent(previous: seq<Descriptor>, record: seq<Descriptor>)
    requires AllUnique(record)
    ensures MergeMembers(MergeMembers(previous, record), record) == MergeMembers(previous, record)
    decreases previous, 0
  {
    if previous == [] {
      MergeMembersWithSelf(record);
    } else {
      var first, rest := previous[0], previous[1..];
      var at := Find(record, first.name);
      var merged := MergeMembers(previous, record);
      if at.None? {
        MergeMembersIdempotent(rest, record);
        assert merged[1..] == MergeMembers(rest, record);
      } else {
        var left := Remove(record, at.value);
        MergeIdempotent(first, record[at.value]);
        LookupRemoved(record, at.value, first.name);
        RemoveKeepsUnique(record, at.value);
        MergeMembersIdempotent(rest, left);
        assert merged[1..] == MergeMembers(rest, left);
      }
    }
  }

  lemma RemoveKeepsUnique(record: seq<Descriptor>, at: nat)
    requires AllUnique(record) && at < |record|
    ensures AllUnique(Remove(record, at))
  {
    var rest := Remove(record, at);
    forall i | 0 <= i < |rest| ensures rest[i] == record[if i < at then i else i + 1] {
    }
  }

  // ---- The loops -----------------------------------------------------------------------------------------------

  method IndexMembers(members: seq<Descriptor>) returns (record: seq<Descriptor>)
    ensures record == Index(members)
  {
    record := [];
    for i := 0 to |members|
      invariant record == Index(members[..i])
    {
      record := Assign(record, members[i]);
      assert members[..i + 1][..i] == members[..i];
    }
    assert members[..|members|] == members;
  }

  method MergeRuns(previous: Descriptor, updates: Descriptor) returns (d: Descriptor)
    ensures d == Merge(previous, updates)
    decreases previous
  {
    d := FillResults(previous, updates);
    if previous.members.Absent? {
      return;
    }
    if updates.members.Absent? {
      d := d.(members := previous.members);
      return;
    }
    var updated := IndexMembers(updates.members.list);
    ghost var all := MergeMembers(previous.members.list, updated);
    var merged := [];
    for i := 0 to |previous.members.list|
      invariant merged + MergeMembers(previous.members.list[i..], updated) == all
    {
      var member := previous.members.list[i];
      assert previous.members.list[i..][0] == member;
      assert previous.members.list[i..][1..] == previous.members.list[i + 1..];
      var at := Find(updated, member.name);
      if at.None? {
        merged := merged + [member.(isDisabled := Some(true))];
      } else {
        var one := MergeRuns(member, updated[at.value]);
        merged := merged + [one];
        updated := Remove(updated, at.value);
      }
    }
    merged := merged + updated;
    d := d.(members := Present(merged));
  }

  /** The loop over the result fields. */
  method FillResults(previous: Descriptor, updates: Descriptor) returns (d: Descriptor)
    ensures d == MergeFields(previous, updates)
    ensures MergedFrom(previous, updates, d) && d.members == updates.members
  {
    d := updates;
    if previous.durationMs.Some? && d.durationMs.None? {
      d := d.(durationMs := previous.durationMs);
    }
    if previous.passed.Some? && d.passed.None? {
      d := d.(passed := previous.passed);
    }
    if previous.runAt.Some? && d.runAt.None? {
      d := d.(runAt := previous.runAt);
    }
  }
}
