// A step keeps every volume backed, every snapshot archived and nothing else lying around, exactly unless
// it takes one of a few branches.
module Backing {
  import opened Base
  import opened Lists
  import opened State
  import opened ProjectIDs
  import opened Quota
  import opened Driver
  import opened Effects
  import opened Soundness
  import opened Reachable
  import opened Durable
  import opened NodeFiles

  // ---------- when a step loses or leaves something ----------

  /** The k-th member is one that deleting the group gets to. */
  ghost predicate DeletesMember(w: World, id: string, k: nat, env: Env) {
    var g := Find(w.res.groups, GroupID, id);
    id != "" && g.Some? && k < |g.value.snapshotIDs| && GetsTo(w.res.snapshots, g.value.snapshotIDs, 0, k, env)
  }

  function MemberAt(w: World, id: string, k: nat): string {
    var g := Find(w.res.groups, GroupID, id);
    if g.Some? && k < |g.value.snapshotIDs| then g.value.snapshotIDs[k] else ""
  }

  /** What is removed as the k-th member's archive is the directory of a volume. */
  ghost predicate TakesVolume(w: World, id: string, k: nat, env: Env) {
    Outcome(env.removals, k) && Find(w.res.volumes, VolumeID, ArchiveOf(MemberAt(w, id, k))).Some?
  }

  /** A directory that a stored volume needs is removed: because an ephemeral volume could not be mounted,
      as what looks like the archive of a deleted snapshot, or before a restart. */
  ghost predicate LosesBacking(cfg: Config, w: World, e: Event) {
    match e.call
    case NodePublishCall(_, _, _, _, _, _, _) => LosesDirectory(cfg, w, e.call, e.env)
    case DeleteSnapshotCall(id) =>
      id != "" && !cfg.ephemeral && Outcome(e.env.removals, 0) && Find(w.res.volumes, VolumeID, ArchiveOf(id)).Some?
    case DeleteGroupCall(id) => exists k: nat :: DeletesMember(w, id, k, e.env) && TakesVolume(w, id, k, e.env)
    case RestartCall => !(Paths(cfg, Restored(w).volumes) <= w.files - e.env.lost)
    case _ => false
  }

  /** An archive that a stored snapshot needs is removed, as the directory of a volume with its ID. */
  ghost predicate LosesArchive(cfg: Config, w: World, e: Event) {
    match e.call
    case NodePublishCall(id, _, _, _, _, _, _) =>
      LosesDirectory(cfg, w, e.call, e.env) && Find(w.res.snapshots, ArchiveID, id).Some?
    case DeleteVolumeCall(id) =>
      && Deletes(cfg, w, e.call) && Releases(w.res.volumes, id, e.env)
      && Find(w.res.snapshots, ArchiveID, id).Some?
    case NodeUnpublishCall(id, _) =>
      && Unmounts(w, e.call, e.env) && e.env.targetRemoved && Find(w.res.volumes, VolumeID, id).value.ephemeral
      && Releases(w.res.volumes, id, e.env) && Find(w.res.snapshots, ArchiveID, id).Some?
    case RestartCall => !(Archives(cfg, Restored(w).snapshots) <= w.files - e.env.lost)
    case _ => false
  }

  /** The request is valid and the snapshot is not there yet. */
  ghost predicate MakesSnapshot(cfg: Config, w: World, c: Call)
    requires c.CreateSnapshotCall?
  {
    && !cfg.ephemeral && c.name != "" && c.volID != "" && Find(w.res.snapshots, SnapshotName, c.name).None?
    && Find(w.res.volumes, VolumeID, c.volID).Some?
  }

  ghost predicate MakesGroup(w: World, c: Call, env: Env)
    requires c.CreateGroupCall?
  {
    && c.name != "" && c.sources != [] && |c.sources| <= |env.memberIDs|
    && Find(w.res.groups, GroupName, c.name).None?
  }

  /** The archive exists, cannot be removed, and is not also the path of a volume. */
  ghost predicate KeepsFile(cfg: Config, w: World, id: string, removed: bool) {
    !removed && SnapshotPathOf(cfg, id) in w.files && Find(w.res.volumes, VolumeID, ArchiveOf(id)).None?
  }

  /** A file is left behind: a block file or an archive whose making failed, or an archive that could not
      be removed. */
  ghost predicate LeavesFile(cfg: Config, w: World, e: Event) {
    var vs, env := w.res.volumes, e.env;
    match e.call
    case CreateVolumeCall(_, caps, size, kind, _) =>
      && Creates(cfg, w, e.call) && ChooseKind(cfg, vs, size, kind, env.order).Chosen? && !env.filesOK
      && Block in caps && env.remains
    case CreateSnapshotCall(_, _) => MakesSnapshot(cfg, w, e.call) && !env.filesOK && env.remains
    case CreateGroupCall(_, sources) =>
      MakesGroup(w, e.call, env) && StaysUnfinished(vs, sources, MadeUpTo(vs, sources, 0, env), env)
    case DeleteSnapshotCall(id) => id != "" && !cfg.ephemeral && KeepsFile(cfg, w, id, Outcome(env.removals, 0))
    case DeleteGroupCall(id) =>
      exists k: nat :: DeletesMember(w, id, k, env) && KeepsFile(cfg, w, MemberAt(w, id, k), Outcome(env.removals, k))
    case RestartCall =>
      !(w.files - env.lost <= Paths(cfg, Restored(w).volumes) + Archives(cfg, Restored(w).snapshots))
    case _ => false
  }

  /** What a step does to the three properties, exactly. */
  ghost predicate FilesStep(cfg: Config, w: World, e: Event) {
    var d, d' := DiskOf(cfg, w), DiskOf(cfg, Step(cfg, w, e));
    && (Backed(d) ==> (Backed(d') <==> !LosesBacking(cfg, w, e)))
    && (Archived(d) ==> (Archived(d') <==> !LosesArchive(cfg, w, e)))
    && (Housed(d) ==> (Housed(d') <==> !LeavesFile(cfg, w, e)))
  }

  // ---------- calls for volumes ----------

  lemma CreateVolumeFiles(cfg: Config, w: World, e: Event)
    requires SoundWorld(cfg, w) && Possible(cfg, w, e) && e.call.CreateVolumeCall?
    ensures FilesStep(cfg, w, e)
  {
    hide SoundWorld, Paths, Archives, Step, Allocate, Release, Creates, CleansUp, HasFree, PathOf, Absent, Stores;
    var c, env, w1 := e.call, e.env, CreatedWorld(cfg, w, e.call, e.env).0;
    CreateStep(cfg, w, e);
    if Creates(cfg, w, c) {
      var access := RequestedAccess(c.caps);
      AllocateDisk(cfg, w, env.uuid, c.name, c.size, access, false, c.kind, env);
      CreatedSound(cfg, w, c, env);
      SoundMeansUnique(cfg, w1);
      ReleaseDisk(cfg, w1, env.uuid, env.writtenAgain, env);
      NewPath(cfg, w, env.uuid);
      CreatedMeans(cfg, w, c, env);
    }
  }

  lemma CreatedSound(cfg: Config, w: World, c: Call, env: Env)
    requires SoundWorld(cfg, w) && c.CreateVolumeCall? && Creates(cfg, w, c)
    ensures SoundWorld(cfg, CreatedWorld(cfg, w, c, env).0)
  {
    hide SoundWorld, Allocate;
    AllocateSound(cfg, w, env.uuid, c.name, c.size, RequestedAccess(c.caps), false, c.kind, env);
  }

  /** Cleaning up means that the volume was stored, and storing it that its files were made. */
  lemma CreatedMeans(cfg: Config, w: World, c: Call, env: Env)
    requires c.CreateVolumeCall?
    ensures CleansUp(cfg, w, c, env) ==> Stores(cfg, w, c.size, c.kind, env)
    ensures Stores(cfg, w, c.size, c.kind, env) <==>
      ChooseKind(cfg, w.res.volumes, c.size, c.kind, env.order).Chosen? && env.filesOK
  {
    hide Adding, LoadContent, Put;
  }

  /** Nothing stored has the path of a new ID. */
  lemma NewPath(cfg: Config, w: World, id: string)
    requires NewID(w.res, id) && Absent(w.res.snapshots, ArchiveID, id)
    ensures PathOf(cfg, id) !in Paths(cfg, w.res.volumes) + Archives(cfg, w.res.snapshots)
  {
    hide PathOf;
    PathInIff(cfg, w.res.volumes, VolumeID, id);
    PathInIff(cfg, w.res.snapshots, ArchiveID, id);
  }

  lemma DeleteVolumeFiles(cfg: Config, w: World, e: Event)
    requires SoundWorld(cfg, w) && e.call.DeleteVolumeCall?
    ensures FilesStep(cfg, w, e)
  {
    hide SoundWorld, Step, Release, Deletes, PathOf, PathsBy, Find;
    DeleteStep(cfg, w, e);
    SoundMeansUnique(cfg, w);
    ReleaseDisk(cfg, w, e.call.id, e.env.written, e.env);
    PathInIff(cfg, w.res.snapshots, ArchiveID, e.call.id);
  }

  lemma UnpublishFiles(cfg: Config, w: World, e: Event)
    requires SoundWorld(cfg, w) && e.call.NodeUnpublishCall?
    ensures FilesStep(cfg, w, e)
  {
    hide SoundWorld, Step, Release, SaveVolume, PathOf, PathsBy;
    var c, env, w1 := e.call, e.env, w.(mounts := w.mounts - {e.call.target});
    UnpublishStep(cfg, w, e);
    if Unmounts(w, c, env) {
      SoundMeansUnique(cfg, w);
      ReleaseDisk(cfg, w1, c.id, env.written, env);
      UpdateDisk(cfg, w1, UnpublishedAt(Find(w.res.volumes, VolumeID, c.id).value, c.target), env.written);
      PathInIff(cfg, w.res.snapshots, ArchiveID, c.id);
    }
  }

  lemma PublishWorldDisk(cfg: Config, w: World, c: Call, env: Env)
    requires c.NodePublishCall?
    ensures var d, d', path := DiskOf(cfg, w), DiskOf(cfg, PublishWorld(cfg, w, c, env)), PathOf(cfg, c.id);
      d' == d || d' == Disk(d.files + {path}, d.backing + {path}, d.archives)
  {
    hide DiskOf, Allocate, PathOf;
    AllocateDisk(cfg, w, c.id, EphemeralName(c.id), EPHEMERAL_SIZE, MountAccess, true, c.kind, env);
  }

  lemma PublishFiles(cfg: Config, w: World, e: Event)
    requires e.call.NodePublishCall?
    ensures FilesStep(cfg, w, e)
  {
    hide Step, PublishWorld, Recordable, SaveVolume, PathOf, PathsBy, Admitted, PublishRefusal, RemovesDirectory;
    var c, w1 := e.call, PublishWorld(cfg, w, e.call, e.env);
    PublishStep(cfg, w, e);
    PublishWorldDisk(cfg, w, c, e.env);
    PathInIff(cfg, w1.res.volumes, VolumeID, c.id);
    PathInIff(cfg, w.res.snapshots, ArchiveID, c.id);
    RecordsNotLoses(cfg, w, c, e.env);
    if Publishes(cfg, w, c, e.env) {
      PublishesMeans(cfg, w, c, e.env);
      var v := Find(w1.res.volumes, VolumeID, c.id).value;
      UpdateDisk(cfg, MountedWorld(w1, c), PublishedAt(cfg, v, c.target), e.env.writtenAgain);
    }
  }

  lemma RecordsNotLoses(cfg: Config, w: World, c: Call, env: Env)
    requires c.NodePublishCall?
    ensures Publishes(cfg, w, c, env) ==> !LosesDirectory(cfg, w, c, env)
  {
    hide PublishWorld, Admitted, PublishRefusal;
  }

  lemma EditFiles(cfg: Config, w: World, e: Event)
    requires EditsVolume(e.call) || e.call.NodeExpandCall?
    ensures FilesStep(cfg, w, e)
  {
    hide Step, SaveVolume, PathsBy, Edited;
    if e.call.NodeExpandCall? {
      ExpandQuotaStep(cfg, w, e);
    } else {
      var v := EditStep(cfg, w, e);
      if Step(cfg, w, e) != w {
        EditedStored(cfg, w.res.volumes, v, e.call);
        UpdateDisk(cfg, w, v, e.env.written);
      }
    }
  }

  lemma EditedStored(cfg: Config, vs: seq<Volume>, v: Volume, c: Call)
    requires Edited(cfg, vs, v, c)
    ensures Find(vs, VolumeID, v.id).Some?
  {
  }

  // ---------- calls for snapshots ----------

  lemma CreateSnapshotFiles(cfg: Config, w: World, e: Event)
    requires Possible(cfg, w, e) && e.call.CreateSnapshotCall?
    ensures FilesStep(cfg, w, e)
  {
    hide HasFree, PathOf, Paths, Archives, Put, IndexBy, Absent;
    var c, env, path := e.call, e.env, SnapshotPathOf(cfg, e.env.uuid);
    NewArchive(cfg, w, env.uuid);
    if MakesSnapshot(cfg, w, c) {
      var v := Find(w.res.volumes, VolumeID, c.volID).value;
      var s := Snapshot(c.name, env.uuid, c.volID, path, env.now, v.size, true, "");
      SaveSnapshotDisk(cfg, w.(files := w.files + {path}), s, env.written);
    }
  }

  lemma NewArchive(cfg: Config, w: World, id: string)
    requires NewID(w.res, id)
    ensures SnapshotPathOf(cfg, id) !in Paths(cfg, w.res.volumes) + Archives(cfg, w.res.snapshots)
  {
    hide PathOf;
    PathInIff(cfg, w.res.volumes, VolumeID, ArchiveOf(id));
    PathInIff(cfg, w.res.snapshots, ArchiveID, ArchiveOf(id));
    forall i | 0 <= i < |w.res.snapshots| ensures ArchiveID(w.res.snapshots[i]) != ArchiveOf(id) {
      ArchiveTellsID(w.res.snapshots[i].id, id);
      assert SnapshotID(w.res.snapshots[i]) != id;
    }
  }

  lemma DeleteSnapshotFiles(cfg: Config, w: World, e: Event)
    requires SoundWorld(cfg, w) && e.call.DeleteSnapshotCall?
    ensures FilesStep(cfg, w, e)
  {
    hide SoundWorld, PathOf, PathsBy, IndexBy, RemoveSnapshot;
    SoundMeansUnique(cfg, w);
    RemoveSnapshotDisk(cfg, w, e.call.id, Outcome(e.env.removals, 0), e.env.written);
    PathInIff(cfg, w.res.volumes, VolumeID, ArchiveOf(e.call.id));
  }

  lemma CreateGroupFiles(cfg: Config, w: World, e: Event)
    requires Possible(cfg, w, e) && e.call.CreateGroupCall?
    ensures FilesStep(cfg, w, e)
  {
    hide HasFree, NewID, PathOf, PathsBy, IndexBy, AddMembers, MemberArchives, Put, Absent;
    var c, env := e.call, e.env;
    if MakesGroup(w, c, env) {
      var k := MadeUpTo(w.res.volumes, c.sources, 0, env);
      AddMembersDisk(cfg, w, c.name, c.sources, 0, env);
      NewGroupDisk(cfg, w, c.name, c.sources, env);
      if StaysUnfinished(w.res.volumes, c.sources, k, env) {
        NewArchive(cfg, w, env.memberIDs[k]);
        NotMade(cfg, env, k);
      }
    }
  }

  lemma NewGroupDisk(cfg: Config, w: World, name: string, sources: seq<string>, env: Env)
    requires |sources| <= |env.memberIDs|
    ensures DiskOf(cfg, NewGroup(cfg, w, name, sources, env).0)
         == DiskOf(cfg, AddMembers(cfg, w, name, sources, 0, env).0)
  {
    hide AddMembers, Put;
  }

  lemma NotMade(cfg: Config, env: Env, k: nat)
    requires k < |env.memberIDs| && forall i, j :: 0 <= i < j < |env.memberIDs| ==> env.memberIDs[i] != env.memberIDs[j]
    ensures SnapshotPathOf(cfg, env.memberIDs[k]) !in MemberArchives(cfg, env, 0, k)
  {
    hide PathOf;
    forall j | 0 <= j < k ensures SnapshotPathOf(cfg, env.memberIDs[j]) != SnapshotPathOf(cfg, env.memberIDs[k]) {
      PathTellsID(cfg, ArchiveOf(env.memberIDs[j]), ArchiveOf(env.memberIDs[k]));
      ArchiveTellsID(env.memberIDs[j], env.memberIDs[k]);
    }
  }

  lemma DeleteGroupDisk(cfg: Config, w: World, e: Event)
    requires SoundWorld(cfg, w) && e.call.DeleteGroupCall?
    ensures var d, g, id := DiskOf(cfg, w), Find(w.res.groups, GroupID, e.call.id), e.call.id;
      DiskOf(cfg, Step(cfg, w, e)) ==
        if id == "" || g.None? then d
        else
          var ss, ids := w.res.snapshots, g.value.snapshotIDs;
          Disk(d.files - TakenAway(cfg, ss, ids, 0, e.env), d.backing, d.archives - GoneOver(cfg, ss, ids, 0, e.env))
  {
    hide SoundWorld, PathsBy, IndexBy, DropMembers, TakenAway, GoneOver, Drop;
    SoundMeansUnique(cfg, w);
    match Find(w.res.groups, GroupID, e.call.id) {
      case None =>
      case Some(g) =>
        MembersDiffer(cfg, w, e.call.id);
        DropMembersDisk(cfg, w, g.snapshotIDs, 0, e.env);
    }
  }

  lemma MembersDiffer(cfg: Config, w: World, id: string)
    requires SoundWorld(cfg, w) && Find(w.res.groups, GroupID, id).Some?
    ensures NoRepeats(Find(w.res.groups, GroupID, id).value.snapshotIDs)
  {
    assert GroupSound(w.res.snapshots, w.res.groups[IndexBy(w.res.groups, GroupID, id)]);
  }

  /** Members have archives of their own, so what is gone over and not taken away stays. */
  lemma LeftOver(cfg: Config, w: World, id: string, k: nat, env: Env)
    requires SoundWorld(cfg, w) && DeletesMember(w, id, k, env)
    ensures var ids := Find(w.res.groups, GroupID, id).value.snapshotIDs;
      && SnapshotPathOf(cfg, ids[k]) in GoneOver(cfg, w.res.snapshots, ids, 0, env)
      && (SnapshotPathOf(cfg, ids[k]) in TakenAway(cfg, w.res.snapshots, ids, 0, env) <==> Outcome(env.removals, k))
  {
    hide SoundWorld, PathOf, GetsTo, Find;
    MembersDiffer(cfg, w, id);
    var ids := Find(w.res.groups, GroupID, id).value.snapshotIDs;
    forall j | 0 <= j < |ids| && j != k ensures SnapshotPathOf(cfg, ids[j]) != SnapshotPathOf(cfg, ids[k]) {
      PathTellsID(cfg, ArchiveOf(ids[j]), ArchiveOf(ids[k]));
      ArchiveTellsID(ids[j], ids[k]);
    }
  }

  /** The k-th member's archive, in terms of what the deletion goes over and takes away. */
  lemma MemberPath(cfg: Config, w: World, id: string, k: nat, env: Env)
    requires SoundWorld(cfg, w) && DeletesMember(w, id, k, env)
    ensures var ids, path := Find(w.res.groups, GroupID, id).value.snapshotIDs, SnapshotPathOf(cfg, MemberAt(w, id, k));
      && path in GoneOver(cfg, w.res.snapshots, ids, 0, env)
      && (path in TakenAway(cfg, w.res.snapshots, ids, 0, env) <==> Outcome(env.removals, k))
      && (path in Paths(cfg, w.res.volumes) <==> Find(w.res.volumes, VolumeID, ArchiveOf(MemberAt(w, id, k))).Some?)
  {
    hide SoundWorld, PathOf, PathsBy, GetsTo, Find;
    LeftOver(cfg, w, id, k, env);
    PathInIff(cfg, w.res.volumes, VolumeID, ArchiveOf(MemberAt(w, id, k)));
  }

  lemma WhichMember(cfg: Config, w: World, id: string, env: Env, path: string) returns (k: nat)
    requires id != "" && Find(w.res.groups, GroupID, id).Some?
    requires path in GoneOver(cfg, w.res.snapshots, Find(w.res.groups, GroupID, id).value.snapshotIDs, 0, env)
    ensures DeletesMember(w, id, k, env) && SnapshotPathOf(cfg, MemberAt(w, id, k)) == path
  {
    hide PathOf, GetsTo, Find;
    var ids := Find(w.res.groups, GroupID, id).value.snapshotIDs;
    k :| k < |ids| && GetsTo(w.res.snapshots, ids, 0, k, env) && SnapshotPathOf(cfg, ids[k]) == path;
  }

  lemma DeleteGroupBacked(cfg: Config, w: World, id: string, env: Env)
    requires SoundWorld(cfg, w) && id != "" && Find(w.res.groups, GroupID, id).Some? && Backed(DiskOf(cfg, w))
    ensures Paths(cfg, w.res.volumes) <= w.files - TakenAway(cfg, w.res.snapshots,
        Find(w.res.groups, GroupID, id).value.snapshotIDs, 0, env)
      <==> !(exists k: nat :: DeletesMember(w, id, k, env) && TakesVolume(w, id, k, env))
  {
    hide SoundWorld, SnapshotPathOf, Paths, Find, GoneOver, TakenAway, DeletesMember, MemberAt;
    var ids := Find(w.res.groups, GroupID, id).value.snapshotIDs;
    var taken := TakenAway(cfg, w.res.snapshots, ids, 0, env);
    TakenIsGone(cfg, w.res.snapshots, ids, 0, env);
    if k: nat :| DeletesMember(w, id, k, env) && TakesVolume(w, id, k, env) {
      MemberPath(cfg, w, id, k, env);
    } else {
      forall path | path in taken ensures path !in Paths(cfg, w.res.volumes) {
        var k := WhichMember(cfg, w, id, env, path);
        MemberPath(cfg, w, id, k, env);
      }
    }
  }

  lemma DeleteGroupHoused(cfg: Config, w: World, id: string, env: Env)
    requires SoundWorld(cfg, w) && id != "" && Find(w.res.groups, GroupID, id).Some? && Housed(DiskOf(cfg, w))
    ensures var ss, ids := w.res.snapshots, Find(w.res.groups, GroupID, id).value.snapshotIDs;
      w.files - TakenAway(cfg, ss, ids, 0, env)
        <= Paths(cfg, w.res.volumes) + (Archives(cfg, ss) - GoneOver(cfg, ss, ids, 0, env))
      <==> !(exists k: nat ::
               DeletesMember(w, id, k, env) && KeepsFile(cfg, w, MemberAt(w, id, k), Outcome(env.removals, k)))
  {
    hide SoundWorld, SnapshotPathOf, Paths, Archives, Find, GoneOver, TakenAway, DeletesMember, MemberAt;
    var ss, ids := w.res.snapshots, Find(w.res.groups, GroupID, id).value.snapshotIDs;
    var over, taken := GoneOver(cfg, ss, ids, 0, env), TakenAway(cfg, ss, ids, 0, env);
    if k: nat :| DeletesMember(w, id, k, env) && KeepsFile(cfg, w, MemberAt(w, id, k), Outcome(env.removals, k)) {
      MemberPath(cfg, w, id, k, env);
      assert SnapshotPathOf(cfg, MemberAt(w, id, k)) in w.files - taken;
    } else {
      forall path | path in over && path in w.files && path !in taken ensures path in Paths(cfg, w.res.volumes) {
        var k := WhichMember(cfg, w, id, env, path);
        MemberPath(cfg, w, id, k, env);
      }
    }
  }

  lemma DeleteGroupFiles(cfg: Config, w: World, e: Event)
    requires SoundWorld(cfg, w) && e.call.DeleteGroupCall?
    ensures FilesStep(cfg, w, e)
  {
    hide SoundWorld, Step, Paths, Archives, Find, GoneOver, TakenAway, DeletesMember, MemberAt, KeepsFile, TakesVolume;
    DeleteGroupDisk(cfg, w, e);
    var id, env, g := e.call.id, e.env, Find(w.res.groups, GroupID, e.call.id);
    if id == "" || g.None? {
      NoMembers(w, id, env);
    } else {
      TakenIsGone(cfg, w.res.snapshots, g.value.snapshotIDs, 0, env);
      if Backed(DiskOf(cfg, w)) {
        DeleteGroupBacked(cfg, w, id, env);
      }
      if Housed(DiskOf(cfg, w)) {
        DeleteGroupHoused(cfg, w, id, env);
      }
    }
  }

  lemma NoMembers(w: World, id: string, env: Env)
    requires id == "" || Find(w.res.groups, GroupID, id).None?
    ensures forall k: nat :: !DeletesMember(w, id, k, env)
  {
  }

  lemma TakenIsGone(cfg: Config, ss: seq<Snapshot>, ids: seq<string>, i: nat, env: Env)
    ensures TakenAway(cfg, ss, ids, i, env) <= GoneOver(cfg, ss, ids, i, env)
  {
    hide PathOf, GetsTo;
  }

  lemma GetGroupFiles(cfg: Config, w: World, e: Event)
    requires e.call.GetGroupCall?
    ensures FilesStep(cfg, w, e)
  {
    hide PathsBy, IndexBy;
  }

  lemma RestartFiles(cfg: Config, w: World, e: Event)
    requires e.call.RestartCall?
    ensures FilesStep(cfg, w, e)
  {
    hide Started, PathsBy;
  }

  /** Every volume stays backed, every snapshot archived and nothing lies around, exactly unless the step
      takes one of the branches above. */
  lemma StepFiles(cfg: Config, w: World, e: Event)
    requires SoundWorld(cfg, w) && Possible(cfg, w, e)
    ensures FilesStep(cfg, w, e)
  {
    hide SoundWorld, Possible, FilesStep;
    match e.call {
      case CreateVolumeCall(_, _, _, _, _) => CreateVolumeFiles(cfg, w, e);
      case DeleteVolumeCall(_) => DeleteVolumeFiles(cfg, w, e);
      case NodePublishCall(_, _, _, _, _, _, _) => PublishFiles(cfg, w, e);
      case NodeUnpublishCall(_, _) => UnpublishFiles(cfg, w, e);
      case CreateSnapshotCall(_, _) => CreateSnapshotFiles(cfg, w, e);
      case DeleteSnapshotCall(_) => DeleteSnapshotFiles(cfg, w, e);
      case CreateGroupCall(_, _) => CreateGroupFiles(cfg, w, e);
      case DeleteGroupCall(_) => DeleteGroupFiles(cfg, w, e);
      case GetGroupCall(_, _) => GetGroupFiles(cfg, w, e);
      case RestartCall => RestartFiles(cfg, w, e);
      case _ => EditFiles(cfg, w, e);
    }
  }

  /** A step keeps every stored volume backed exactly unless it removes the directory of one that stays
      stored: after a failed mount, as an archive, or before a restart. */
  lemma StepBackedIff(cfg: Config, w: World, e: Event)
    requires SoundWorld(cfg, w) && Possible(cfg, w, e) && Backed(DiskOf(cfg, w))
    ensures Backed(DiskOf(cfg, Step(cfg, w, e))) <==> !LosesBacking(cfg, w, e)
  {
    hide SoundWorld, Possible, LosesBacking, LosesArchive, LeavesFile, Step, DiskOf;
    StepFiles(cfg, w, e);
  }

  /** A step keeps every stored snapshot archived exactly unless it removes the archive as the directory of
      a volume, or restarts from a file that has a snapshot whose archive is gone. */
  lemma StepArchivedIff(cfg: Config, w: World, e: Event)
    requires SoundWorld(cfg, w) && Possible(cfg, w, e) && Archived(DiskOf(cfg, w))
    ensures Archived(DiskOf(cfg, Step(cfg, w, e))) <==> !LosesArchive(cfg, w, e)
  {
    hide SoundWorld, Possible, LosesBacking, LosesArchive, LeavesFile, Step, DiskOf;
    StepFiles(cfg, w, e);
  }

  /** A step leaves nothing behind that belongs to nobody exactly unless making a block file or an archive
      fails half way, an archive cannot be removed, or a restart recalls a state without the owner. */
  lemma StepHousedIff(cfg: Config, w: World, e: Event)
    requires SoundWorld(cfg, w) && Possible(cfg, w, e) && Housed(DiskOf(cfg, w))
    ensures Housed(DiskOf(cfg, Step(cfg, w, e))) <==> !LeavesFile(cfg, w, e)
  {
    hide SoundWorld, Possible, LosesBacking, LosesArchive, LeavesFile, Step, DiskOf;
    StepFiles(cfg, w, e);
  }

  // ---------- runs ----------

  lemma CleanRestartFiles(cfg: Config, w: World, e: Event)
    requires e.call.RestartCall? && Mirrored(w) && w.clean
    ensures Backed(DiskOf(cfg, w)) && e.env.lost == {} ==> !LosesBacking(cfg, w, e)
    ensures Archived(DiskOf(cfg, w)) && e.env.lost == {} ==> !LosesArchive(cfg, w, e)
    ensures Housed(DiskOf(cfg, w)) ==> !LeavesFile(cfg, w, e)
  {
    hide PathsBy;
    assert Restored(w).volumes == w.res.volumes && Restored(w).snapshots == w.res.snapshots;
  }

  /** No call takes a volume's directory away, and a settled restart finds all files. */
  ghost predicate SparesBacking(cfg: Config, w: World, e: Event) {
    Settled(w, e) && if e.call.RestartCall? then e.env.lost == {} else !LosesBacking(cfg, w, e)
  }

  ghost predicate SparesArchives(cfg: Config, w: World, e: Event) {
    Settled(w, e) && if e.call.RestartCall? then e.env.lost == {} else !LosesArchive(cfg, w, e)
  }

  ghost predicate LeavesNothing(cfg: Config, w: World, e: Event) {
    Settled(w, e) && (!e.call.RestartCall? ==> !LeavesFile(cfg, w, e))
  }

  ghost predicate BackingSpared(cfg: Config, w: World, es: seq<Event>)
    decreases |es|
  {
    es == [] || (SparesBacking(cfg, w, es[0]) && BackingSpared(cfg, Step(cfg, w, es[0]), es[1..]))
  }

  ghost predicate ArchivesSpared(cfg: Config, w: World, es: seq<Event>)
    decreases |es|
  {
    es == [] || (SparesArchives(cfg, w, es[0]) && ArchivesSpared(cfg, Step(cfg, w, es[0]), es[1..]))
  }

  ghost predicate NothingLeft(cfg: Config, w: World, es: seq<Event>)
    decreases |es|
  {
    es == [] || (LeavesNothing(cfg, w, es[0]) && NothingLeft(cfg, Step(cfg, w, es[0]), es[1..]))
  }

  lemma SparedStep(cfg: Config, w: World, e: Event)
    requires SoundWorld(cfg, w) && Mirrored(w) && Possible(cfg, w, e)
    ensures var d, d' := DiskOf(cfg, w), DiskOf(cfg, Step(cfg, w, e));
      && (Backed(d) && SparesBacking(cfg, w, e) ==> Backed(d'))
      && (Archived(d) && SparesArchives(cfg, w, e) ==> Archived(d'))
      && (Housed(d) && LeavesNothing(cfg, w, e) ==> Housed(d'))
  {
    hide SoundWorld, Mirrored, Possible, LosesBacking, LosesArchive, LeavesFile, Step, DiskOf, Backed, Archived, Housed;
    StepFiles(cfg, w, e);
    if e.call.RestartCall? && w.clean {
      CleanRestartFiles(cfg, w, e);
    }
  }

  lemma {:induction false} RunFiles(cfg: Config, w: World, es: seq<Event>)
    requires SoundWorld(cfg, w) && Mirrored(w) && PossibleRun(cfg, w, es)
    ensures var d, d' := DiskOf(cfg, w), DiskOf(cfg, Run(cfg, w, es));
      && (Backed(d) && BackingSpared(cfg, w, es) ==> Backed(d'))
      && (Archived(d) && ArchivesSpared(cfg, w, es) ==> Archived(d'))
      && (Housed(d) && NothingLeft(cfg, w, es) ==> Housed(d'))
    decreases |es|
  {
    hide SoundWorld, Mirrored, DiskOf, Backed, Archived, Housed, SparesBacking, SparesArchives, LeavesNothing, Possible;
    if es != [] {
      SparedStep(cfg, w, es[0]);
      StepSound(cfg, w, es[0]);
      StepMirrored(cfg, w, es[0]);
      RunFiles(cfg, Step(cfg, w, es[0]), es[1..]);
    }
  }

  /** On all runs: where no step takes a directory away every volume is backed, where none takes an archive
      away every snapshot is archived, and where none leaves a file behind nothing else exists. */
  lemma ReachableFiles(cfg: Config, w: World, es: seq<Event>)
    requires Initial(w) && PossibleRun(cfg, w, es)
    ensures var w' := Run(cfg, w, es);
      && (BackingSpared(cfg, w, es) ==> Paths(cfg, w'.res.volumes) <= w'.files)
      && (ArchivesSpared(cfg, w, es) ==> Archives(cfg, w'.res.snapshots) <= w'.files)
      && (NothingLeft(cfg, w, es) ==> w'.files <= Paths(cfg, w'.res.volumes) + Archives(cfg, w'.res.snapshots))
  {
    EmptySound(cfg);
    RunFiles(cfg, w, es);
  }
}
