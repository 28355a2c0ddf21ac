// The state store: three lists of records that are searched, changed in place and
// mirrored to a file. The ID lists of a group snapshot are arrays, because comparing
// them sorts them where they are stored.
module State {
  import opened Base
  import opened Lists
  import opened Sorting

  datatype AccessType = MountAccess | BlockAccess

  datatype Volume = Volume(
    name: string,
    id: string,
    size: int64,
    path: string,
    access: AccessType,
    parentVolID: string,
    parentSnapID: string,
    ephemeral: bool,
    nodeID: string,
    kind: string,
    readOnlyAttach: bool,
    attached: bool,
    staged: seq<string>,
    published: seq<string>)

  datatype Snapshot = Snapshot(
    name: string,
    id: string,
    volID: string,
    path: string,
    creationTime: int,
    size: int64,
    ready: bool,
    groupID: string)

  /** A group snapshot by value, as the state file holds it. */
  datatype Group = Group(
    name: string,
    id: string,
    snapshotIDs: seq<string>,
    sourceVolumeIDs: seq<string>,
    creationTime: int,
    ready: bool)

  /** A group snapshot in memory. Copying the record shares both arrays. */
  datatype GroupRecord = GroupRecord(
    name: string,
    id: string,
    snapshotIDs: array<string>,
    sourceVolumeIDs: array<string>,
    creationTime: int,
    ready: bool)

  datatype Resources = Resources(volumes: seq<Volume>, snapshots: seq<Snapshot>, groups: seq<Group>)

  const EMPTY := Resources([], [], [])

  function VolumeID(v: Volume): string { v.id }

  function VolumeName(v: Volume): string { v.name }

  function SnapshotID(s: Snapshot): string { s.id }

  function SnapshotName(s: Snapshot): string { s.name }

  function GroupID(g: Group): string { g.id }

  function GroupName(g: Group): string { g.name }

  function RecordID(g: GroupRecord): string { g.id }

  function RecordName(g: GroupRecord): string { g.name }

  // ---------- comparing ID lists in place ----------

  /** Stands for sort.Strings: Sorted is the only outcome a sorting routine can have. */
  method SortStrings(a: array<string>)
    modifies a
    ensures a[..] == Sorted(old(a[..]))
  {
    var t := Sorted(a[..]);
    forall i | 0 <= i < a.Length {
      a[i] := t[i];
    }
  }

  function SortedUnlessLengthDiffers(a: seq<string>, b: seq<string>): seq<string> {
    if |a| == |b| then Sorted(a) else a
  }

  /** True exactly for permutations of each other, and the arguments are at most permuted.
      The two arrays may be the same one. */
  method EqualIDs(a: array<string>, b: array<string>) returns (same: bool)
    modifies a, b
    ensures same <==> multiset(old(a[..])) == multiset(old(b[..]))
    ensures a[..] == SortedUnlessLengthDiffers(old(a[..]), old(b[..]))
    ensures b[..] == SortedUnlessLengthDiffers(old(b[..]), old(a[..]))
  {
    hide Sorted;
    ghost var a0, b0 := a[..], b[..];
    if a.Length != b.Length {
      assert |multiset(a0)| == |a0| && |multiset(b0)| == |b0|;
      return false;
    }
    SortStrings(a);
    SortStrings(b);
    SortedEqualIffPermutation(a0, b0);
    SortedEqualIffPermutation(Sorted(a0), a0);
    var i := 0;
    while i < a.Length
      invariant i <= a.Length
      invariant forall j :: 0 <= j < i ==> a[j] == b[j]
    {
      if a[i] != b[i] {
        assert a[..][i] != b[..][i];
        return false;
      }
      i := i + 1;
    }
    assert a[..] == b[..];
    return true;
  }

  // ---------- group records and their values ----------

  function ValueOf(g: GroupRecord): Group
    reads g.snapshotIDs, g.sourceVolumeIDs
  {
    Group(g.name, g.id, g.snapshotIDs[..], g.sourceVolumeIDs[..], g.creationTime, g.ready)
  }

  function ArraysOf(gs: seq<GroupRecord>): set<object> {
    (set i | 0 <= i < |gs| :: gs[i].snapshotIDs as object) + (set i | 0 <= i < |gs| :: gs[i].sourceVolumeIDs as object)
  }

  function ValuesOf(gs: seq<GroupRecord>): (r: seq<Group>)
    reads ArraysOf(gs)
    ensures |r| == |gs|
    ensures forall i :: 0 <= i < |gs| ==> r[i] == ValueOf(gs[i])
  {
    if gs == [] then []
    else
      assert ArraysOf(gs[..|gs| - 1]) <= ArraysOf(gs) by {
        assert forall i :: 0 <= i < |gs| - 1 ==> gs[..|gs| - 1][i] == gs[i];
      }
      ValuesOf(gs[..|gs| - 1]) + [ValueOf(gs[|gs| - 1])]
  }

  /** No two ID lists share an array, so sorting one changes one stored list only. */
  ghost predicate Separate(gs: seq<GroupRecord>) {
    forall i, j :: 0 <= i < |gs| && 0 <= j < |gs| ==>
      && gs[i].snapshotIDs != gs[j].sourceVolumeIDs
      && (i != j ==> gs[i].snapshotIDs != gs[j].snapshotIDs && gs[i].sourceVolumeIDs != gs[j].sourceVolumeIDs)
  }

  lemma IndexOfValue(gs: seq<GroupRecord>, id: string)
    ensures IndexBy(ValuesOf(gs), GroupID, id) == IndexBy(gs, RecordID, id)
  {
    var i := IndexBy(gs, RecordID, id);
    if i < |gs| {
      IndexIs(ValuesOf(gs), GroupID, id, i);
    }
  }

  lemma IndexOfNamedValue(gs: seq<GroupRecord>, name: string)
    ensures IndexBy(ValuesOf(gs), GroupName, name) == IndexBy(gs, RecordName, name)
  {
    var i := IndexBy(gs, RecordName, name);
    if i < |gs| {
      IndexIs(ValuesOf(gs), GroupName, name, i);
    }
  }

  lemma ValuesOfPut(gs: seq<GroupRecord>, g: GroupRecord)
    ensures ValuesOf(Put(gs, RecordID, g)) == Put(ValuesOf(gs), GroupID, ValueOf(g))
  {
    hide ValuesOf, ArraysOf;
    IndexOfValue(gs, g.id);
  }

  lemma ValuesOfDrop(gs: seq<GroupRecord>, id: string)
    ensures ValuesOf(Drop(gs, RecordID, id)) == Drop(ValuesOf(gs), GroupID, id)
  {
    hide ValuesOf, ArraysOf, ValueOf;
    IndexOfValue(gs, id);
    var k, t := IndexBy(gs, RecordID, id), Drop(gs, RecordID, id);
    if k < |gs| {
      assert forall j :: 0 <= j < |t| ==> t[j] == gs[if j < k then j else j + 1];
    }
  }

  lemma SeparateDrop(gs: seq<GroupRecord>, id: string)
    requires Separate(gs)
    ensures Separate(Drop(gs, RecordID, id))
  {
    var i, t := IndexBy(gs, RecordID, id), Drop(gs, RecordID, id);
    if i < |gs| {
      assert forall j :: 0 <= j < |t| ==> t[j] == gs[if j < i then j else j + 1];
    }
  }

  /** Arrays that no stored group uses keep the lists separate. */
  lemma SeparatePut(gs: seq<GroupRecord>, g: GroupRecord)
    requires Separate(gs) && g.snapshotIDs != g.sourceVolumeIDs
    requires g.snapshotIDs !in ArraysOf(gs) && g.sourceVolumeIDs !in ArraysOf(gs)
    ensures Separate(Put(gs, RecordID, g))
  {
    assert forall j :: 0 <= j < |gs| ==>
      gs[j].snapshotIDs as object in ArraysOf(gs) && gs[j].sourceVolumeIDs as object in ArraysOf(gs);
  }

  method ArrayOf(s: seq<string>) returns (a: array<string>)
    ensures fresh(a) && a[..] == s
  {
    a := new string[|s|](i requires 0 <= i < |s| => s[i]);
  }

  /** Builds records with arrays of their own for groups read from the state file. */
  method Decode(gs: seq<Group>) returns (records: seq<GroupRecord>)
    ensures fresh(ArraysOf(records)) && Separate(records)
    ensures ValuesOf(records) == gs
  {
    records := [];
    var i := 0;
    while i < |gs|
      invariant i <= |gs|
      invariant |records| == i && Separate(records)
      invariant forall j :: 0 <= j < i ==> fresh(records[j].snapshotIDs) && fresh(records[j].sourceVolumeIDs)
      invariant forall j :: 0 <= j < i ==> ValueOf(records[j]) == gs[j]
    {
      var g := gs[i];
      var ids := ArrayOf(g.snapshotIDs);
      var sources := ArrayOf(g.sourceVolumeIDs);
      records := records + [GroupRecord(g.name, g.id, ids, sources, g.creationTime, g.ready)];
      i := i + 1;
    }
  }

  // ---------- the store ----------

  class Store {
    var volumes: seq<Volume>
    var snapshots: seq<Snapshot>
    var groups: seq<GroupRecord>
    var file: Option<Resources>
    // The lists by value.
    ghost var contents: Resources
    // No write has failed since the last one that succeeded.
    ghost var clean: bool

    ghost predicate Valid()
      reads this, Arrays()
    {
      Separate(groups) && contents == Resources(volumes, snapshots, ValuesOf(groups))
    }

    ghost function Arrays(): set<object>
      reads this`groups
    {
      ArraysOf(groups)
    }

    function Value(): Resources
      reads this`volumes, this`snapshots, this`groups, ArraysOf(groups)
    {
      Resources(volumes, snapshots, ValuesOf(groups))
    }

    /** Opens a store on the given state file; a missing file means an empty state. */
    constructor (file: Option<Resources>)
      ensures Valid() && fresh(Arrays())
      ensures this.file == file && clean
      ensures contents == if file.Some? then file.value else EMPTY
    {
      var res := if file.Some? then file.value else EMPTY;
      var records := Decode(res.groups);
      this.file, clean := file, true;
      volumes, snapshots, groups, contents := res.volumes, res.snapshots, records, res;
    }

    method Dump(written: bool) returns (ok: bool)
      requires Valid()
      modifies this`file, this`clean
      ensures Valid()
      ensures ok == written == clean
      ensures file == if written then Some(contents) else old(file)
    {
      if written {
        file := Some(Value());
      }
      clean := written;
      ok := written;
    }

    // ----- volumes -----

    method GetVolumeByID(id: string) returns (v: Option<Volume>)
      requires Valid()
      ensures v == Find(contents.volumes, VolumeID, id)
    {
      var i := 0;
      while i < |volumes|
        invariant i <= |volumes|
        invariant forall j :: 0 <= j < i ==> VolumeID(volumes[j]) != id
      {
        if volumes[i].id == id {
          IndexIs(volumes, VolumeID, id, i);
          return Some(volumes[i]);
        }
        i := i + 1;
      }
      return None;
    }

    method GetVolumeByName(name: string) returns (v: Option<Volume>)
      requires Valid()
      ensures v == Find(contents.volumes, VolumeName, name)
    {
      var i := 0;
      while i < |volumes|
        invariant i <= |volumes|
        invariant forall j :: 0 <= j < i ==> VolumeName(volumes[j]) != name
      {
        if volumes[i].name == name {
          IndexIs(volumes, VolumeName, name, i);
          return Some(volumes[i]);
        }
        i := i + 1;
      }
      return None;
    }

    method SetVolumes(list: seq<Volume>, written: bool) returns (ok: bool)
      requires Valid()
      modifies this`volumes, this`contents, this`file, this`clean
      ensures Valid() && contents == old(contents).(volumes := list)
      ensures ok == written == clean
      ensures file == if written then Some(contents) else old(file)
    {
      volumes, contents := list, contents.(volumes := list);
      ok := Dump(written);
    }

    method UpdateVolume(update: Volume, written: bool) returns (ok: bool)
      requires Valid()
      modifies this`volumes, this`contents, this`file, this`clean
      ensures Valid()
      ensures contents == old(contents).(volumes := Put(old(contents).volumes, VolumeID, update))
      ensures ok == written == clean
      ensures file == if written then Some(contents) else old(file)
    {
      var i := 0;
      while i < |volumes|
        invariant i <= |volumes|
        invariant forall j :: 0 <= j < i ==> VolumeID(volumes[j]) != update.id
      {
        if volumes[i].id == update.id {
          IndexIs(volumes, VolumeID, update.id, i);
          ok := SetVolumes(volumes[i := update], written);
          return;
        }
        i := i + 1;
      }
      ok := SetVolumes(volumes + [update], written);
    }

    method DeleteVolume(id: string, written: bool) returns (ok: bool)
      requires Valid()
      modifies this`volumes, this`contents, this`file, this`clean
      ensures Valid()
      ensures contents == old(contents).(volumes := Drop(old(contents).volumes, VolumeID, id))
      ensures Find(old(contents).volumes, VolumeID, id).None? ==> ok && file == old(file) && clean == old(clean)
      ensures Find(old(contents).volumes, VolumeID, id).Some? ==>
        ok == written == clean && file == if written then Some(contents) else old(file)
    {
      var i := 0;
      while i < |volumes|
        invariant i <= |volumes|
        invariant forall j :: 0 <= j < i ==> VolumeID(volumes[j]) != id
      {
        if volumes[i].id == id {
          IndexIs(volumes, VolumeID, id, i);
          ok := SetVolumes(volumes[..i] + volumes[i + 1..], written);
          return;
        }
        i := i + 1;
      }
      ok := true;
    }

    // ----- snapshots -----

    method GetSnapshotByID(id: string) returns (s: Option<Snapshot>)
      requires Valid()
      ensures s == Find(contents.snapshots, SnapshotID, id)
    {
      var i := 0;
      while i < |snapshots|
        invariant i <= |snapshots|
        invariant forall j :: 0 <= j < i ==> SnapshotID(snapshots[j]) != id
      {
        if snapshots[i].id == id {
          IndexIs(snapshots, SnapshotID, id, i);
          return Some(snapshots[i]);
        }
        i := i + 1;
      }
      return None;
    }

    method GetSnapshotByName(name: string) returns (s: Option<Snapshot>)
      requires Valid()
      ensures s == Find(contents.snapshots, SnapshotName, name)
    {
      var i := 0;
      while i < |snapshots|
        invariant i <= |snapshots|
        invariant forall j :: 0 <= j < i ==> SnapshotName(snapshots[j]) != name
      {
        if snapshots[i].name == name {
          IndexIs(snapshots, SnapshotName, name, i);
          return Some(snapshots[i]);
        }
        i := i + 1;
      }
      return None;
    }

    method SetSnapshots(list: seq<Snapshot>, written: bool) returns (ok: bool)
      requires Valid()
      modifies this`snapshots, this`contents, this`file, this`clean
      ensures Valid() && contents == old(contents).(snapshots := list)
      ensures ok == written == clean
      ensures file == if written then Some(contents) else old(file)
    {
      snapshots, contents := list, contents.(snapshots := list);
      ok := Dump(written);
    }

    method UpdateSnapshot(update: Snapshot, written: bool) returns (ok: bool)
      requires Valid()
      modifies this`snapshots, this`contents, this`file, this`clean
      ensures Valid()
      ensures contents == old(contents).(snapshots := Put(old(contents).snapshots, SnapshotID, update))
      ensures ok == written == clean
      ensures file == if written then Some(contents) else old(file)
    {
      var i := 0;
      while i < |snapshots|
        invariant i <= |snapshots|
        invariant forall j :: 0 <= j < i ==> SnapshotID(snapshots[j]) != update.id
      {
        if snapshots[i].id == update.id {
          IndexIs(snapshots, SnapshotID, update.id, i);
          ok := SetSnapshots(snapshots[i := update], written);
          return;
        }
        i := i + 1;
      }
      ok := SetSnapshots(snapshots + [update], written);
    }

    method DeleteSnapshot(id: string, written: bool) returns (ok: bool)
      requires Valid()
      modifies this`snapshots, this`contents, this`file, this`clean
      ensures Valid()
      ensures contents == old(contents).(snapshots := Drop(old(contents).snapshots, SnapshotID, id))
      ensures Find(old(contents).snapshots, SnapshotID, id).None? ==> ok && file == old(file) && clean == old(clean)
      ensures Find(old(contents).snapshots, SnapshotID, id).Some? ==>
        ok == written == clean && file == if written then Some(contents) else old(file)
    {
      var i := 0;
      while i < |snapshots|
        invariant i <= |snapshots|
        invariant forall j :: 0 <= j < i ==> SnapshotID(snapshots[j]) != id
      {
        if snapshots[i].id == id {
          IndexIs(snapshots, SnapshotID, id, i);
          ok := SetSnapshots(snapshots[..i] + snapshots[i + 1..], written);
          return;
        }
        i := i + 1;
      }
      ok := true;
    }

    // ----- group snapshots -----

    method GetGroupSnapshotByID(id: string) returns (g: Option<GroupRecord>)
      requires Valid()
      ensures g == Find(groups, RecordID, id)
      ensures IndexBy(contents.groups, GroupID, id) == IndexBy(groups, RecordID, id)
    {
      IndexOfValue(groups, id);
      var i := 0;
      while i < |groups|
        invariant i <= |groups|
        invariant forall j :: 0 <= j < i ==> RecordID(groups[j]) != id
      {
        if groups[i].id == id {
          IndexIs(groups, RecordID, id, i);
          return Some(groups[i]);
        }
        i := i + 1;
      }
      return None;
    }

    method GetGroupSnapshotByName(name: string) returns (g: Option<GroupRecord>)
      requires Valid()
      ensures g == Find(groups, RecordName, name)
      ensures IndexBy(contents.groups, GroupName, name) == IndexBy(groups, RecordName, name)
    {
      IndexOfNamedValue(groups, name);
      var i := 0;
      while i < |groups|
        invariant i <= |groups|
        invariant forall j :: 0 <= j < i ==> RecordName(groups[j]) != name
      {
        if groups[i].name == name {
          IndexIs(groups, RecordName, name, i);
          return Some(groups[i]);
        }
        i := i + 1;
      }
      return None;
    }

    /** Installs a new group list and writes the state out. */
    method SetGroups(gs: seq<GroupRecord>, written: bool) returns (ok: bool)
      requires Valid() && Separate(gs)
      modifies this`groups, this`contents, this`file, this`clean
      ensures Valid() && groups == gs
      ensures contents == old(contents).(groups := old(ValuesOf(gs)))
      ensures ok == written == clean
      ensures file == if written then Some(contents) else old(file)
    {
      groups, contents := gs, contents.(groups := ValuesOf(gs));
      ok := Dump(written);
    }

    method UpdateGroupSnapshot(update: GroupRecord, written: bool) returns (ok: bool)
      requires Valid() && Separate(Put(groups, RecordID, update))
      modifies this`groups, this`contents, this`file, this`clean
      ensures Valid() && groups == Put(old(groups), RecordID, update)
      ensures contents == old(contents).(groups := Put(old(contents).groups, GroupID, old(ValueOf(update))))
      ensures ok == written == clean
      ensures file == if written then Some(contents) else old(file)
    {
      hide Separate, ValuesOf, ArraysOf, IndexBy;
      ValuesOfPut(groups, update);
      var i := 0;
      while i < |groups|
        invariant i <= |groups|
        invariant forall j :: 0 <= j < i ==> RecordID(groups[j]) != update.id
      {
        if groups[i].id == update.id {
          IndexIs(groups, RecordID, update.id, i);
          ok := SetGroups(groups[i := update], written);
          return;
        }
        i := i + 1;
      }
      ok := SetGroups(groups + [update], written);
    }

    method DeleteGroupSnapshot(id: string, written: bool) returns (ok: bool)
      requires Valid()
      modifies this`groups, this`contents, this`file, this`clean
      ensures Valid() && groups == Drop(old(groups), RecordID, id)
      ensures contents == old(contents).(groups := Drop(old(contents).groups, GroupID, id))
      ensures Find(old(contents).groups, GroupID, id).None? ==> ok && file == old(file) && clean == old(clean)
      ensures Find(old(contents).groups, GroupID, id).Some? ==>
        ok == written == clean && file == if written then Some(contents) else old(file)
    {
      hide Separate, ValuesOf, ArraysOf, IndexBy;
      ValuesOfDrop(groups, id);
      SeparateDrop(groups, id);
      var i := 0;
      while i < |groups|
        invariant i <= |groups|
        invariant forall j :: 0 <= j < i ==> RecordID(groups[j]) != id
      {
        if groups[i].id == id {
          IndexIs(groups, RecordID, id, i);
          ok := SetGroups(groups[..i] + groups[i + 1..], written);
          return;
        }
        i := i + 1;
      }
      ok := true;
    }

    /** Compares a stored group's source list with a request's list; both get sorted, nothing is written. */
    method MatchesSourceVolumeIDs(i: nat, ids: array<string>) returns (same: bool)
      requires Valid() && i < |groups| && ids !in Arrays()
      modifies this`contents, groups[i].sourceVolumeIDs, ids
      ensures Valid()
      ensures var g := old(contents).groups[i];
        && (same <==> multiset(g.sourceVolumeIDs) == multiset(old(ids[..])))
        && contents == old(contents).(groups := old(contents).groups[i :=
             g.(sourceVolumeIDs := SortedUnlessLengthDiffers(g.sourceVolumeIDs, old(ids[..])))])
    {
      same := EqualIDs(groups[i].sourceVolumeIDs, ids);
      ghost var before := contents.groups;
      contents := contents.(groups := before[i := ValueOf(groups[i])]);
      OthersUntouched(i, before);
    }

    /** The same for a stored group's list of member snapshots. */
    method MatchesSnapshotIDs(i: nat, ids: array<string>) returns (same: bool)
      requires Valid() && i < |groups| && ids !in Arrays()
      modifies this`contents, groups[i].snapshotIDs, ids
      ensures Valid()
      ensures var g := old(contents).groups[i];
        && (same <==> multiset(g.snapshotIDs) == multiset(old(ids[..])))
        && contents == old(contents).(groups := old(contents).groups[i :=
             g.(snapshotIDs := SortedUnlessLengthDiffers(g.snapshotIDs, old(ids[..])))])
    {
      same := EqualIDs(groups[i].snapshotIDs, ids);
      ghost var before := contents.groups;
      contents := contents.(groups := before[i := ValueOf(groups[i])]);
      OthersUntouched(i, before);
    }

    lemma OthersUntouched(i: nat, before: seq<Group>)
      requires i < |groups| == |before|
      requires forall j :: 0 <= j < |groups| && j != i ==> ValueOf(groups[j]) == before[j]
      ensures ValuesOf(groups) == before[i := ValueOf(groups[i])]
    {
    }
  }
}
