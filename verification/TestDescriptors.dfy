/** Test descriptors and the merging of test runs (packages/testing/src/test-descriptor.ts). */
module TestDescriptors {
  import opened Options

  datatype Kind = Suite | Js | Py | Yaml | Manual | TestStep | Cert

  /** A test or a group of tests.  `details` stands for the fields no operation here looks at. */
  datatype Descriptor = Descriptor(
    name: string,
    kind: Kind,
    members: Members,
    isDisabled: Option<bool>,
    durationMs: Option<int>,
    passed: Option<bool>,
    runAt: Option<int>,
    pics: Option<string>,
    path: Option<string>,
    details: map<string, string>)

  /** The `members` field: absent, or a list. */
  datatype Members = Absent | Present(list: seq<Descriptor>)

  predicate Distinct(members: seq<Descriptor>) {
    forall i, j :: 0 <= i < j < |members| ==> members[i].name != members[j].name
  }

  /** No two siblings anywhere in the tree share a name. */
  predicate Unique(d: Descriptor) {
    d.members.Present? ==>
      Distinct(d.members.list) && forall i :: 0 <= i < |d.members.list| ==> Unique(d.members.list[i])
  }

  predicate AllUnique(members: seq<Descriptor>) {
    Distinct(members) && forall i :: 0 <= i < |members| ==> Unique(members[i])
  }

  // ---- Records of members, in insertion order ------------------------------------------------------------------

  /** The position of the member with the given name. */
  function Find(record: seq<Descriptor>, name: string): (at: Option<nat>)
    ensures at.Some? ==> at.value < |record| && record[at.value].name == name
    ensures at.None? ==> forall i :: 0 <= i < |record| ==> record[i].name != name
  {
    if record == [] then None
    else if record[0].name == name then Some(0)
    else
      var rest := Find(record[1..], name);
      if rest.Some? then Some(rest.value + 1) else None
  }

  function Assign(record: seq<Descriptor>, d: Descriptor): seq<Descriptor> {
    var at := Find(record, d.name);
    if at.Some? then record[at.value := d] else record + [d]
  }

  function Index(members: seq<Descriptor>): seq<Descriptor> {
    if members == [] then [] else Assign(Index(members[..|members| - 1]), members[|members| - 1])
  }

  function Remove(record: seq<Descriptor>, at: nat): seq<Descriptor>
    requires at < |record|
  {
    record[..at] + record[at + 1..]
  }

  // ---- Merging -------------------------------------------------------------------------------------------------

  function Latest<T>(previous: Option<T>, update: Option<T>): Option<T> {
    if previous.Some? && update.None? then previous else update
  }

  /** The fields of the new run, with the results of the previous one where the new run has none. */
  function MergeFields(previous: Descriptor, updates: Descriptor): Descriptor {
    updates.(durationMs := Latest(previous.durationMs, updates.durationMs),
             passed := Latest(previous.passed, updates.passed),
             runAt := Latest(previous.runAt, updates.runAt))
  }

  function Merge(previous: Descriptor, updates: Descriptor): Descriptor
    decreases previous, 1
  {
    var d := MergeFields(previous, updates);
    if previous.members.Absent? then d
    else if updates.members.Absent? then d.(members := previous.members)
    else d.(members := Present(MergeMembers(previous.members.list, Index(updates.members.list))))
  }

  function MergeMembers(previous: seq<Descriptor>, record: seq<Descriptor>): seq<Descriptor>
    decreases previous, 0
  {
    if previous == [] then record
    else
      var at := Find(record, previous[0].name);
      if at.None? then [previous[0].(isDisabled := Some(true))] + MergeMembers(previous[1..], record)
      else [Merge(previous[0], record[at.value])] + MergeMembers(previous[1..], Remove(record, at.value))
  }
}
