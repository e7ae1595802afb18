/** Looking tests up by path (`TestDescriptor.Filesystem` in packages/testing/src/test-descriptor.ts). */
module TestFilesystem {
  import opened Options
  import opened TestDescriptors
  import opened Paths

  // ---- Members by name -----------------------------------------------------------------------------------------

  /** Whether the member found first stays when another of the same name follows. */
  predicate Outranks(existing: Kind, member: Kind) {
    match existing
    case Suite => true
    case Js => member.Suite?
    case Py => !member.Js?
    case Yaml => member.Suite? || member.Js? || member.Py?
    case _ => existing == member
  }

  function Slot(members: seq<Descriptor>): map<string, Descriptor> {
    if members == [] then map[]
    else
      var slot, member := Slot(members[..|members| - 1]), members[|members| - 1];
      if member.name in slot && Outranks(slot[member.name].kind, member.kind) then slot else slot[member.name := member]
  }

  function MemberOf(d: Descriptor, name: string): Option<Descriptor> {
    if d.members.Absent? || d.members.list == [] then None
    else
      var slot := Slot(d.members.list);
      if name in slot then Some(slot[name]) else None
  }

  /** A name finds a member exactly when some member has it, and what it finds is one of them. */
  lemma {:induction false} SlotFinds(members: seq<Descriptor>, name: string)
    ensures name in Slot(members) <==> exists i :: 0 <= i < |members| && members[i].name == name
    ensures name in Slot(members) ==> Slot(members)[name] in members && Slot(members)[name].name == name
  {
    if members != [] {
      var before, last := members[..|members| - 1], members[|members| - 1];
      SlotFinds(before, name);
      if name in Slot(before) {
        var i :| 0 <= i < |before| && before[i].name == name;
        assert members[i].name == name;
      }
      if exists i :: 0 <= i < |members| && members[i].name == name {
        var i :| 0 <= i < |members| && members[i].name == name;
        assert i < |before| ==> before[i].name == name;
      }
      assert last in members && forall d :: d in before ==> d in members;
    }
  }

  /** A later member takes the place of one of the same name; a suite never gives way, nor do js, py and yaml to one. */
  predicate TakesOver(member: Kind, existing: Kind) {
    || (existing == Js && member != Suite)
    || (existing == Py && member == Js)
    || (existing == Yaml && member in {Yaml, Manual, TestStep, Cert})
    || (existing in {Manual, TestStep, Cert} && member != existing)
  }

  /** What one more member changes: it is found under its name if nothing was, or if it takes over. */
  lemma SlotGrows(members: seq<Descriptor>, last: Descriptor, name: string)
    ensures var before, after := Slot(members), Slot(members + [last]);
            if name != last.name then
              (name in after <==> name in before) && (name in after ==> after[name] == before[name])
            else
              && name in after
              && var stays := name in before && !TakesOver(last.kind, before[name].kind);
                 after[name] == if stays then before[name] else last
  {
    assert (members + [last])[..|members|] == members;
  }

  /** A name finds something below a descriptor exactly when one of its members has the name. */
  lemma MemberFinds(d: Descriptor, name: string)
    ensures MemberOf(d, name).Some? <==>
            d.members.Present? && exists i :: 0 <= i < |d.members.list| && d.members.list[i].name == name
    ensures var r := MemberOf(d, name);
            r.Some? ==> r.value in d.members.list && r.value.name == name
  {
    if d.members.Present? {
      SlotFinds(d.members.list, name);
    }
  }

  // ---- Paths ---------------------------------------------------------------------------------------------------

  /** The trail `stat` keeps from the root down to where it stands. */
  function Trail(root: Descriptor, segments: seq<string>): Option<seq<Descriptor>> {
    if segments == [] then Some([root])
    else
      var before := Trail(root, segments[..|segments| - 1]);
      if before.None? then None else Advance(before.value, segments[|segments| - 1])
  }

  function Advance(trail: seq<Descriptor>, segment: string): Option<seq<Descriptor>> {
    if segment == "." || segment == "" then Some(trail)
    else if segment == ".." then Some(if |trail| > 1 then trail[..|trail| - 1] else trail)
    else if trail == [] then None
    else
      var member := MemberOf(trail[|trail| - 1], segment);
      if member.None? then None else Some(trail + [member.value])
  }

  datatype Stat = Stat(isDirectory: bool, isFile: bool, descriptor: Descriptor)

  function StatOf(d: Descriptor): Stat { Stat(d.kind.Suite?, !d.kind.Suite? && d.path.Some?, d) }

  function StatPath(root: Descriptor, path: string): Option<Stat> {
    var trail := Trail(root, Split(path));
    if trail.None? || trail.value == [] then None else Some(StatOf(trail.value[|trail.value| - 1]))
  }

  // ---- Normalising a path and walking its names ----------------------------------------------------------------

  function Walk(root: Descriptor, names: seq<string>): Option<Descriptor> {
    if names == [] then Some(root)
    else
      var parent := Walk(root, names[..|names| - 1]);
      if parent.None? then None else MemberOf(parent.value, names[|names| - 1])
  }

  predicate Follows(root: Descriptor, trail: seq<Descriptor>, names: seq<string>) {
    |trail| == |names| + 1 && forall k :: 0 <= k <= |names| ==> Walk(root, names[..k]) == Some(trail[k])
  }

  /** Where the lookup gets, it stands where walking the normalised names leads. */
  lemma {:induction false} TrailFollowsNames(root: Descriptor, segments: seq<string>)
    ensures Trail(root, segments).Some? ==> Follows(root, Trail(root, segments).value, Normalise(segments))
  {
    if segments != [] {
      var before, last := segments[..|segments| - 1], segments[|segments| - 1];
      TrailFollowsNames(root, before);
      if Trail(root, segments).Some? {
        AdvanceFollows(root, Trail(root, before).value, Normalise(before), last);
      }
    }
  }

  lemma AdvanceFollows(root: Descriptor, trail: seq<Descriptor>, names: seq<string>, segment: string)
    requires Follows(root, trail, names) && Advance(trail, segment).Some?
    ensures Follows(root, Advance(trail, segment).value, Extend(names, segment))
  {
    if segment != "." && segment != "" {
      if segment == ".." {
        if names != [] {
          var up := names[..|names| - 1];
          forall k | 0 <= k <= |up| ensures Walk(root, up[..k]) == Some(trail[k]) {
            assert up[..k] == names[..k];
          }
        }
      } else {
        var down := names + [segment];
        var trail' := Advance(trail, segment).value;
        forall k | 0 <= k <= |down| ensures Walk(root, down[..k]) == Some(trail'[k]) {
          if k <= |names| {
            assert down[..k] == names[..k];
          } else {
            assert down[..k] == down && down[..|names|] == names && names[..|names|] == names;
          }
        }
      }
    }
  }

  predicate PrefixExists(root: Descriptor, segments: seq<string>, k: nat)
    requires k <= |segments|
  {
    Walk(root, Normalise(segments[..k])).Some?
  }

  /** Every prefix of the path leads somewhere. */
  predicate AllPrefixesExist(root: Descriptor, segments: seq<string>) {
    forall k: nat :: k <= |segments| ==> PrefixExists(root, segments, k)
  }

  /** The lookup succeeds exactly when every prefix of the path, normalised, leads to a descriptor. */
  lemma {:induction false} TrailExistsIff(root: Descriptor, segments: seq<string>)
    ensures Trail(root, segments).Some? <==> AllPrefixesExist(root, segments)
  {
    if segments == [] {
      forall k: nat | k <= |segments| ensures PrefixExists(root, segments, k) {
        assert segments[..k] == [];
      }
    } else {
      var before, last := segments[..|segments| - 1], segments[|segments| - 1];
      TrailExistsIff(root, before);
      PrefixesSnoc(root, segments);
      TrailFollowsNames(root, before);
      TrailFollowsNames(root, segments);
      if Trail(root, segments).Some? {
        FollowedExists(root, Trail(root, segments).value, Normalise(segments));
      } else if Trail(root, before).Some? {
        LastStepIff(root, Trail(root, before).value, Normalise(before), last);
      }
    }
  }

  lemma FollowedExists(root: Descriptor, trail: seq<Descriptor>, names: seq<string>)
    requires Follows(root, trail, names)
    ensures Walk(root, names).Some?
  {
    assert names[..|names|] == names;
  }

  lemma PrefixesSnoc(root: Descriptor, segments: seq<string>)
    requires segments != []
    ensures AllPrefixesExist(root, segments) <==>
            AllPrefixesExist(root, segments[..|segments| - 1]) && Walk(root, Normalise(segments)).Some?
  {
    var before := segments[..|segments| - 1];
    forall k: nat | k <= |before| ensures PrefixExists(root, before, k) == PrefixExists(root, segments, k) {
      assert before[..k] == segments[..k];
    }
    assert PrefixExists(root, segments, |segments|) == Walk(root, Normalise(segments)).Some? by {
      assert segments[..|segments|] == segments;
    }
  }

  lemma LastStepIff(root: Descriptor, trail: seq<Descriptor>, names: seq<string>, segment: string)
    requires Follows(root, trail, names) && segment != "." && segment != "" && segment != ".."
    ensures Advance(trail, segment).Some? <==> Walk(root, names + [segment]).Some?
  {
    assert (names + [segment])[..|names|] == names && names[..|names|] == names;
  }

  /** `stat` succeeds exactly when every prefix exists, and then reports the descriptor the normalised names lead to. */
  lemma StatFindsNormalised(root: Descriptor, path: string)
    ensures var r := StatPath(root, path);
            && (r.Some? <==> AllPrefixesExist(root, Split(path)))
            && (r.Some? ==>
                  && Walk(root, Normalise(Split(path))) == Some(r.value.descriptor)
                  && (r.value.isDirectory <==> r.value.descriptor.kind == Suite)
                  && (r.value.isFile <==> r.value.descriptor.kind != Suite && r.value.descriptor.path != None))
  {
    var segments := Split(path);
    TrailExistsIff(root, segments);
    TrailFollowsNames(root, segments);
    var names := Normalise(segments);
    assert names[..|names|] == names;
  }

  // ---- The adapter object --------------------------------------------------------------------------------------

  class Filesystem {
    const root: Descriptor
    var index: map<Descriptor, map<string, Descriptor>>

    /** A cached slot is the one the members would yield. */
    predicate Valid()
      reads this
    {
      forall d :: d in index ==> d.members.Present? && d.members.list != [] && index[d] == Slot(d.members.list)
    }

    constructor (root: Descriptor)
      ensures Valid() && this.root == root
    {
      this.root := root;
      index := map[];
    }

    method Member(d: Descriptor, name: string) returns (r: Option<Descriptor>)
      requires Valid()
      modifies this
      ensures Valid()
      ensures r == MemberOf(d, name)
    {
      if d.members.Absent? || d.members.list == [] {
        return None;
      }
      if d !in index {
        var members := d.members.list;
        var slot: map<string, Descriptor> := map[];
        for i := 0 to |members|
          invariant slot == Slot(members[..i])
          invariant Valid()
        {
          var member := members[i];
          assert members[..i + 1][..i] == members[..i];
          if member.name in slot && Outranks(slot[member.name].kind, member.kind) {
            continue;
          }
          slot := slot[member.name := member];
        }
        assert members[..|members|] == members;
        index := index[d := slot];
      }
      var slot := index[d];
      r := if name in slot then Some(slot[name]) else None;
    }

    method StatAt(path: string) returns (r: Option<Stat>)
      requires Valid()
      modifies this
      ensures Valid()
      ensures r == StatPath(root, path)
    {
      var segments := Split(path);
      var breadcrumb := [root];
      for i := 0 to |segments|
        invariant Valid()
        invariant |breadcrumb| >= 1 && Trail(root, segments[..i]) == Some(breadcrumb)
      {
        var segment := segments[i];
        assert segments[..i + 1][..i] == segments[..i];
        if segment == "." || segment == "" {
          continue;
        }
        if segment == ".." {
          if |breadcrumb| > 1 {
            breadcrumb := breadcrumb[..|breadcrumb| - 1];
          }
          continue;
        }
        var member := Member(breadcrumb[|breadcrumb| - 1], segment);
        if member.None? {
          LostForGood(root, segments, i + 1);
          return None;
        }
        breadcrumb := breadcrumb + [member.value];
      }
      assert segments[..|segments|] == segments;
      r := Some(StatOf(breadcrumb[|breadcrumb| - 1]));
    }
  }

  lemma {:induction false} LostForGood(root: Descriptor, segments: seq<string>, i: nat)
    requires i <= |segments| && Trail(root, segments[..i]).None?
    ensures Trail(root, segments).None?
    decreases |segments|
  {
    if i < |segments| {
      assert segments[..|segments| - 1][..i] == segments[..i];
      LostForGood(root, segments[..|segments| - 1], i);
    } else {
      assert segments[..i] == segments;
    }
  }
}
