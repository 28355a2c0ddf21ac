// What every step keeps, in memory and in the state file alike: unique IDs and names,
// bounded sizes and attachments, and group snapshots whose members match their sources.
module Soundness {
  import opened Base
  import opened Lists
  import opened Sorting
  import opened State
  import opened Driver

  // ---------- volumes ----------

  ghost predicate VolumeSound(cfg: Config, v: Volume) {
    && v.parentVolID == "" && v.parentSnapID == ""
    && v.size <= cfg.maxVolumeSize
    && |v.staged| <= 1
    && v.path == PathOf(cfg, v.id)
  }

  function AttachCount(vs: seq<Volume>): int { SumBy(vs, AttachedBit) }

  ghost predicate VolumesSound(cfg: Config, vs: seq<Volume>) {
    && Unique(vs, VolumeID)
    && Unique(vs, VolumeName)
    && (forall i :: 0 <= i < |vs| ==> VolumeSound(cfg, vs[i]))
    && (cfg.attachLimit > 0 ==> AttachCount(vs) <= cfg.attachLimit)
  }

  /** A volume that replaces the one with its ID, or is new, and takes nobody else's name. */
  ghost predicate NameFree(vs: seq<Volume>, v: Volume) {
    forall i :: 0 <= i < |vs| && vs[i].id != v.id ==> vs[i].name != v.name
  }

  ghost predicate AttachAllowed(cfg: Config, vs: seq<Volume>, v: Volume) {
    || !v.attached
    || (Find(vs, VolumeID, v.id).Some? && Find(vs, VolumeID, v.id).value.attached)
    || (cfg.attachLimit > 0 ==> AttachCount(vs) < cfg.attachLimit)
  }

  lemma PutVolumeSound(cfg: Config, vs: seq<Volume>, v: Volume)
    requires VolumesSound(cfg, vs) && VolumeSound(cfg, v) && NameFree(vs, v) && AttachAllowed(cfg, vs, v)
    ensures VolumesSound(cfg, Put(vs, VolumeID, v))
  {
    PutUnique(vs, VolumeID, v, VolumeID);
    PutUnique(vs, VolumeID, v, VolumeName);
    SumPut(vs, VolumeID, v, AttachedBit);
  }

  lemma DropVolumeSound(cfg: Config, vs: seq<Volume>, id: string)
    requires VolumesSound(cfg, vs)
    ensures VolumesSound(cfg, Drop(vs, VolumeID, id))
  {
    DropUnique(vs, VolumeID, id, VolumeID);
    DropUnique(vs, VolumeID, id, VolumeName);
    SumDrop(vs, VolumeID, id, AttachedBit);
    var t := Drop(vs, VolumeID, id);
    forall j | 0 <= j < |t| ensures VolumeSound(cfg, t[j]) {
      var i := DropMember(vs, VolumeID, id, j);
    }
  }

  // ---------- snapshots and groups ----------

  ghost predicate AllPresent(snapshots: seq<Snapshot>, ids: seq<string>) {
    forall i :: 0 <= i < |ids| ==> Find(snapshots, SnapshotID, ids[i]).Some?
  }

  /** Source volume of a stored snapshot. */
  function VolumeOf(snapshots: seq<Snapshot>, id: string): string {
    match Find(snapshots, SnapshotID, id) case Some(s) => s.volID case None => ""
  }

  function VolumesOf(snapshots: seq<Snapshot>, ids: seq<string>): seq<string> {
    seq(|ids|, i requires 0 <= i < |ids| => VolumeOf(snapshots, ids[i]))
  }

  /** While all members are stored, their source volumes are the group's source volumes, as a multiset. */
  ghost predicate MatchesSources(snapshots: seq<Snapshot>, g: Group) {
    AllPresent(snapshots, g.snapshotIDs) ==>
      multiset(VolumesOf(snapshots, g.snapshotIDs)) == multiset(g.sourceVolumeIDs)
  }

  ghost predicate NoRepeats(ids: seq<string>) { forall i, j :: 0 <= i < j < |ids| ==> ids[i] != ids[j] }

  ghost predicate GroupSound(snapshots: seq<Snapshot>, g: Group) {
    && |g.snapshotIDs| == |g.sourceVolumeIDs|
    && NoRepeats(g.snapshotIDs)
    && MatchesSources(snapshots, g)
    && forall i :: 0 <= i < |snapshots| && snapshots[i].id in g.snapshotIDs ==> snapshots[i].groupID == g.id
  }

  ghost predicate Disjoint(a: seq<string>, b: seq<string>) { forall x :: x in a ==> x !in b }

  ghost predicate GroupsSound(snapshots: seq<Snapshot>, groups: seq<Group>) {
    && Unique(groups, GroupID)
    && Unique(groups, GroupName)
    && (forall i :: 0 <= i < |groups| ==> GroupSound(snapshots, groups[i]))
    && (forall i, j :: 0 <= i < |groups| && 0 <= j < |groups| && i != j ==>
          Disjoint(groups[i].snapshotIDs, groups[j].snapshotIDs))
  }

  ghost predicate Sound(cfg: Config, r: Resources) {
    VolumesSound(cfg, r.volumes) && Unique(r.snapshots, SnapshotID) && GroupsSound(r.snapshots, r.groups)
  }

  /** The same of the state file: whatever was last written can be restored safely. */
  ghost predicate SoundWorld(cfg: Config, w: World) {
    Sound(cfg, w.res) && (w.file.Some? ==> Sound(cfg, w.file.value))
  }

  lemma SoundMeansUnique(cfg: Config, w: World)
    requires SoundWorld(cfg, w)
    ensures Unique(w.res.volumes, VolumeID) && Unique(w.res.snapshots, SnapshotID)
    ensures Unique(w.res.groups, GroupID) && Unique(w.res.groups, GroupName)
  {
  }

  // ----- lists of IDs up to order -----

  lemma {:induction false} PresentUpToOrder(snapshots: seq<Snapshot>, a: seq<string>, b: seq<string>)
    requires multiset(a) == multiset(b) && AllPresent(snapshots, a)
    ensures AllPresent(snapshots, b)
  {
    forall i | 0 <= i < |b| ensures Find(snapshots, SnapshotID, b[i]).Some? {
      assert b[i] in multiset(a);
    }
  }

  lemma {:induction false} VolumesUpToOrder(snapshots: seq<Snapshot>, a: seq<string>, b: seq<string>)
    requires multiset(a) == multiset(b)
    ensures multiset(VolumesOf(snapshots, a)) == multiset(VolumesOf(snapshots, b))
  {
    assert |multiset(a)| == |a| && |multiset(b)| == |b|;
    if a != [] {
      assert a[0] in multiset(b);
      var j :| 0 <= j < |b| && b[j] == a[0];
      var b' := b[..j] + b[j + 1..];
      TailMultiset(a);
      WithoutMiddle(b, j);
      VolumesUpToOrder(snapshots, a[1..], b');
      MapHead(snapshots, a);
      MapMiddle(snapshots, b, j);
    }
  }

  lemma WithoutMiddle(b: seq<string>, j: nat)
    requires j < |b|
    ensures multiset(b[..j] + b[j + 1..]) == multiset(b) - multiset{b[j]}
  {
    assert b == b[..j] + [b[j]] + b[j + 1..];
  }

  lemma MapHead(snapshots: seq<Snapshot>, a: seq<string>)
    requires a != []
    ensures multiset(VolumesOf(snapshots, a)) ==
      multiset(VolumesOf(snapshots, a[1..])) + multiset{VolumeOf(snapshots, a[0])}
  {
    assert VolumesOf(snapshots, a) == [VolumeOf(snapshots, a[0])] + VolumesOf(snapshots, a[1..]);
  }

  lemma MapMiddle(snapshots: seq<Snapshot>, b: seq<string>, j: nat)
    requires j < |b|
    ensures multiset(VolumesOf(snapshots, b)) ==
      multiset(VolumesOf(snapshots, b[..j] + b[j + 1..])) + multiset{VolumeOf(snapshots, b[j])}
  {
    assert VolumesOf(snapshots, b)
        == VolumesOf(snapshots, b[..j]) + [VolumeOf(snapshots, b[j])] + VolumesOf(snapshots, b[j + 1..]);
    assert VolumesOf(snapshots, b[..j] + b[j + 1..]) == VolumesOf(snapshots, b[..j]) + VolumesOf(snapshots, b[j + 1..]);
  }

  /** Two versions of a group that differ at most in the order of each ID list. */
  ghost predicate SameUpToOrder(g: Group, h: Group) {
    && g == h.(snapshotIDs := g.snapshotIDs, sourceVolumeIDs := g.sourceVolumeIDs)
    && multiset(g.snapshotIDs) == multiset(h.snapshotIDs)
    && multiset(g.sourceVolumeIDs) == multiset(h.sourceVolumeIDs)
  }

  lemma MembersUpToOrder(a: seq<string>, b: seq<string>)
    requires multiset(a) == multiset(b)
    ensures |a| == |b|
    ensures forall x :: x in a <==> x in b
    ensures NoRepeats(a) ==> NoRepeats(b)
  {
    assert |multiset(a)| == |a| && |multiset(b)| == |b|;
    forall x ensures x in a <==> x in b {
      assert x in a <==> x in multiset(a);
      assert x in b <==> x in multiset(b);
    }
    if NoRepeats(a) {
      forall i, j | 0 <= i < j < |b| ensures b[i] != b[j] {
        if b[i] == b[j] {
          OnceEach(a, b[i]);
          TwiceAtLeast(b, i, j);
        }
      }
    }
  }

  lemma {:induction false} OnceEach(a: seq<string>, x: string)
    requires NoRepeats(a)
    ensures multiset(a)[x] <= 1
  {
    if a != [] {
      OnceEach(a[1..], x);
      assert a == [a[0]] + a[1..];
      if a[0] == x {
        assert x !in a[1..];
      }
    }
  }

  lemma TwiceAtLeast(b: seq<string>, i: nat, j: nat)
    requires i < j < |b| && b[i] == b[j]
    ensures multiset(b)[b[i]] >= 2
  {
    assert b == b[..i] + [b[i]] + b[i + 1..j] + [b[j]] + b[j + 1..];
  }

  lemma GroupSoundUpToOrder(snapshots: seq<Snapshot>, g: Group, h: Group)
    requires GroupSound(snapshots, g) && SameUpToOrder(g, h)
    ensures GroupSound(snapshots, h)
  {
    MembersUpToOrder(g.snapshotIDs, h.snapshotIDs);
    MembersUpToOrder(g.sourceVolumeIDs, h.sourceVolumeIDs);
    if AllPresent(snapshots, h.snapshotIDs) {
      PresentUpToOrder(snapshots, h.snapshotIDs, g.snapshotIDs);
      VolumesUpToOrder(snapshots, g.snapshotIDs, h.snapshotIDs);
    }
  }

  // ----- changes to the snapshot list -----

  lemma AddedSnapshotKeepsGroup(snapshots: seq<Snapshot>, s: Snapshot, g: Group)
    requires GroupSound(snapshots, g) && s.id !in g.snapshotIDs && Absent(snapshots, SnapshotID, s.id)
    ensures GroupSound(snapshots + [s], g)
  {
    assert snapshots + [s] == Put(snapshots, SnapshotID, s);
    forall i | 0 <= i < |g.snapshotIDs|
      ensures Find(snapshots + [s], SnapshotID, g.snapshotIDs[i]) == Find(snapshots, SnapshotID, g.snapshotIDs[i])
    {
      assert g.snapshotIDs[i] in g.snapshotIDs;
      FindPut(snapshots, SnapshotID, s, g.snapshotIDs[i]);
    }
    assert VolumesOf(snapshots + [s], g.snapshotIDs) == VolumesOf(snapshots, g.snapshotIDs);
  }

  lemma RemovedSnapshotKeepsGroup(snapshots: seq<Snapshot>, id: string, g: Group)
    requires GroupSound(snapshots, g) && Unique(snapshots, SnapshotID)
    ensures GroupSound(Drop(snapshots, SnapshotID, id), g)
  {
    var t := Drop(snapshots, SnapshotID, id);
    if AllPresent(t, g.snapshotIDs) {
      forall i | 0 <= i < |g.snapshotIDs|
        ensures Find(t, SnapshotID, g.snapshotIDs[i]) == Find(snapshots, SnapshotID, g.snapshotIDs[i])
      {
        PresentAfterDrop(snapshots, id, g.snapshotIDs[i]);
      }
      assert VolumesOf(t, g.snapshotIDs) == VolumesOf(snapshots, g.snapshotIDs);
    }
    forall j | 0 <= j < |t| && t[j].id in g.snapshotIDs ensures t[j].groupID == g.id {
      var i := DropMember(snapshots, SnapshotID, id, j);
    }
  }

  lemma PresentAfterDrop(snapshots: seq<Snapshot>, id: string, k: string)
    requires Unique(snapshots, SnapshotID)
    requires Find(Drop(snapshots, SnapshotID, id), SnapshotID, k).Some?
    ensures k != id && Find(Drop(snapshots, SnapshotID, id), SnapshotID, k) == Find(snapshots, SnapshotID, k)
  {
    var t := Drop(snapshots, SnapshotID, id);
    FindDropped(snapshots, SnapshotID, id);
    var i := DropMember(snapshots, SnapshotID, id, IndexBy(t, SnapshotID, k));
    FindKeptByDrop(snapshots, SnapshotID, id, SnapshotID, k);
  }

  lemma AddSnapshotSound(cfg: Config, r: Resources, s: Snapshot)
    requires Sound(cfg, r) && NewID(r, s.id)
    ensures Put(r.snapshots, SnapshotID, s) == r.snapshots + [s]
    ensures Sound(cfg, r.(snapshots := r.snapshots + [s]))
  {
    PutUnique(r.snapshots, SnapshotID, s, SnapshotID);
    forall i | 0 <= i < |r.groups| ensures GroupSound(r.snapshots + [s], r.groups[i]) {
      AddedSnapshotKeepsGroup(r.snapshots, s, r.groups[i]);
    }
  }

  lemma DropSnapshotSound(cfg: Config, r: Resources, id: string)
    requires Sound(cfg, r)
    ensures Sound(cfg, r.(snapshots := Drop(r.snapshots, SnapshotID, id)))
  {
    DropUnique(r.snapshots, SnapshotID, id, SnapshotID);
    forall i | 0 <= i < |r.groups| ensures GroupSound(Drop(r.snapshots, SnapshotID, id), r.groups[i]) {
      RemovedSnapshotKeepsGroup(r.snapshots, id, r.groups[i]);
    }
  }

  // ----- changes to the group list -----

  lemma AddGroupSound(cfg: Config, r: Resources, g: Group)
    requires Sound(cfg, r) && GroupSound(r.snapshots, g)
    requires Absent(r.groups, GroupID, g.id) && Absent(r.groups, GroupName, g.name)
    requires forall i :: 0 <= i < |r.groups| ==> Disjoint(r.groups[i].snapshotIDs, g.snapshotIDs)
    ensures Put(r.groups, GroupID, g) == r.groups + [g]
    ensures Sound(cfg, r.(groups := r.groups + [g]))
  {
    PutUnique(r.groups, GroupID, g, GroupID);
    PutUnique(r.groups, GroupID, g, GroupName);
  }

  lemma DropGroupSound(cfg: Config, r: Resources, id: string)
    requires Sound(cfg, r)
    ensures Sound(cfg, r.(groups := Drop(r.groups, GroupID, id)))
  {
    DropUnique(r.groups, GroupID, id, GroupID);
    DropUnique(r.groups, GroupID, id, GroupName);
    var t, k := Drop(r.groups, GroupID, id), IndexBy(r.groups, GroupID, id);
    if k < |r.groups| {
      assert forall j :: 0 <= j < |t| ==> t[j] == r.groups[if j < k then j else j + 1];
    }
  }

  lemma ReorderGroupSound(cfg: Config, r: Resources, i: nat, h: Group)
    requires Sound(cfg, r) && i < |r.groups| && SameUpToOrder(r.groups[i], h)
    ensures Sound(cfg, r.(groups := r.groups[i := h]))
  {
    GroupSoundUpToOrder(r.snapshots, r.groups[i], h);
    MembersUpToOrder(r.groups[i].snapshotIDs, h.snapshotIDs);
  }
}
