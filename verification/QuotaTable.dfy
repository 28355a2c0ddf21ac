// The quota table and the volume list agree: every directory with a quota is the path of a stored
// volume, and the other way round when every quota could be set.
module QuotaTable {
  import opened Base
  import opened Lists
  import opened Sorting
  import opened State
  import opened ProjectIDs
  import opened ProjectsFile
  import opened Quota
  import opened Sizes
  import opened Driver
  import opened Effects
  import opened Soundness
  import opened Reachable
  import opened Durable
  import opened NodeFiles
  import opened Backing
  import opened QuotaFile

  ghost predicate Covered(cfg: Config, w: World) { TableOf(w.quotas).Keys <= Paths(cfg, w.res.volumes) }

  /** Every stored volume has a quota. */
  ghost predicate Quotaed(cfg: Config, w: World) { Paths(cfg, w.res.volumes) <= TableOf(w.quotas).Keys }

  // ---------- allocation and release ----------

  lemma AddingKeys(q: Quotas, dir: string, cap: string, o: Outcomes)
    ensures var ds, ds' := TableOf(q), TableOf(Adding(q, dir, cap, o));
      && ds.Keys - {dir} <= ds'.Keys <= ds.Keys + {dir}
      && (dir in ds' <==> q.Enabled? && o.projectOK)
  {
    hide IsOrder, LeastFree;
  }

  lemma RemovingKeys(q: Quotas, dir: string, o: Outcomes)
    ensures TableOf(Removing(q, dir, o)).Keys == TableOf(q).Keys - {dir}
  {
    hide IsOrder;
  }

  lemma ResizingKeys(q: Quotas, dir: string, cap: string, o: Outcomes)
    ensures TableOf(Resizing(q, dir, cap, o).0).Keys == TableOf(q).Keys
  {
    hide IsOrder;
  }

  /** Storing the volume leaves it without a quota: the write or the command fails, or there are none. */
  predicate MissesQuota(q: Quotas, dir: string, env: Env) {
    if env.written && q.Enabled? then !env.quota.projectOK else dir !in TableOf(q)
  }

  lemma AllocateTable(cfg: Config, w: World, id: string, name: string, size: int64, access: AccessType,
                      ephemeral: bool, kind: string, env: Env)
    ensures var w' := Allocate(cfg, w, id, name, size, access, ephemeral, kind, env).0;
      && (Covered(cfg, w) ==> Covered(cfg, w'))
      && (Quotaed(cfg, w) ==> (Quotaed(cfg, w') <==>
            !(Stores(cfg, w, size, kind, env) && MissesQuota(w.quotas, PathOf(cfg, id), env))))
      && Paths(cfg, w.res.volumes) * TableOf(w.quotas).Keys - {PathOf(cfg, id)} <= TableOf(w'.quotas).Keys
  {
    hide Adding, Allocate, PathsBy, PathOf, SizeText;
    AllocateDisk(cfg, w, id, name, size, access, ephemeral, kind, env);
    AllocateQuota(cfg, w, id, name, size, access, ephemeral, kind, env);
    AddingKeys(w.quotas, PathOf(cfg, id), SizeText(size as real), env.quota);
  }

  /** A deletion forgets the volume, cannot write that down, and so never takes the quota away. */
  predicate LeavesQuota(cfg: Config, w: World, id: string, written: bool, env: Env) {
    var v := Find(w.res.volumes, VolumeID, id);
    v.Some? && Removable(v.value, env) && !written && PathOf(cfg, id) in TableOf(w.quotas)
  }

  lemma ReleaseTable(cfg: Config, w: World, id: string, written: bool, env: Env)
    requires Unique(w.res.volumes, VolumeID)
    ensures var w' := Release(cfg, w, id, written, env).0;
      && (Covered(cfg, w) ==> (Covered(cfg, w') <==> !LeavesQuota(cfg, w, id, written, env)))
      && (Quotaed(cfg, w) ==> Quotaed(cfg, w'))
      && (Quotaed(cfg, w') && !Releases(w.res.volumes, id, env) ==> Quotaed(cfg, w))
      && (Releases(w.res.volumes, id, env) ==>
            Paths(cfg, w.res.volumes) - {PathOf(cfg, id)} <= TableOf(w.quotas).Keys ==> Quotaed(cfg, w'))
  {
    hide Removing, Release, PathsBy, PathOf;
    ReleaseDisk(cfg, w, id, written, env);
    ReleaseQuota(cfg, w, id, written, env);
    PathInIff(cfg, w.res.volumes, VolumeID, id);
    RemovingKeys(w.quotas, PathOf(cfg, id), env.quota);
  }

  // ---------- calls ----------

  /** Volume paths and quota directories are the same as before. */
  ghost predicate TableKept(cfg: Config, w: World, w': World) {
    && Paths(cfg, w'.res.volumes) == Paths(cfg, w.res.volumes)
    && TableOf(w'.quotas).Keys == TableOf(w.quotas).Keys
  }

  lemma KeptMeans(cfg: Config, w: World, w': World)
    requires TableKept(cfg, w, w')
    ensures Covered(cfg, w) <==> Covered(cfg, w')
    ensures Quotaed(cfg, w) <==> Quotaed(cfg, w')
  {
  }

  lemma UpdateKept(cfg: Config, w: World, v: Volume, written: bool)
    requires Find(w.res.volumes, VolumeID, v.id).Some?
    ensures TableKept(cfg, w, SaveVolume(w, v, written))
  {
    PathsUpdate(cfg, w.res.volumes, v);
  }

  lemma EditKept(cfg: Config, w: World, e: Event)
    requires EditsVolume(e.call)
    ensures TableKept(cfg, w, Step(cfg, w, e))
  {
    hide Step, SaveVolume;
    var v := EditStep(cfg, w, e);
    if Step(cfg, w, e) != w {
      hide TableKept;
      UpdateKept(cfg, w, v, e.env.written);
    }
  }

  lemma SnapshotStepKept(cfg: Config, w: World, e: Event)
    requires (ForSnapshots(e.call) || e.call.NodeExpandCall?)
    ensures TableKept(cfg, w, Step(cfg, w, e))
  {
    hide Resizing, SizeText, PathsBy;
    if ForSnapshots(e.call) {
      hide Step;
      SnapshotStepKeepsVolumes(cfg, w, e);
    } else {
      var size: int64 := if e.call.capRange.Some? then e.call.capRange.value else 0;
      ResizingKeys(w.quotas, PathOf(cfg, e.call.id), SizeText(size as real), e.env.quota);
    }
  }

  lemma PublishedKept(cfg: Config, w: World, e: Event)
    requires e.call.NodePublishCall?
    ensures TableKept(cfg, PublishWorld(cfg, w, e.call, e.env), Step(cfg, w, e))
  {
    hide Step, PublishWorld, Recordable, LosesDirectory, SaveVolume, PathsBy;
    var c, w1 := e.call, PublishWorld(cfg, w, e.call, e.env);
    PublishStep(cfg, w, e);
    if Publishes(cfg, w, c, e.env) {
      var v := Find(w1.res.volumes, VolumeID, c.id).value;
      UpdateKept(cfg, MountedWorld(w1, c), PublishedAt(cfg, v, c.target), e.env.writtenAgain);
    }
  }

  /** The step's own deletion leaves a quota behind, or a restart reads one for a directory whose
      volume the state file does not have. */
  ghost predicate StepLeavesQuota(cfg: Config, w: World, e: Event)
  {
    var env := e.env;
    match e.call
    case DeleteVolumeCall(id) => Deletes(cfg, w, e.call) && LeavesQuota(cfg, w, id, env.written, env)
    case NodeUnpublishCall(id, _) =>
      && Unmounts(w, e.call, env) && env.targetRemoved && Find(w.res.volumes, VolumeID, id).value.ephemeral
      && LeavesQuota(cfg, w, id, env.written, env)
    case CreateVolumeCall(_, _, _, _, _) =>
      && Creates(cfg, w, e.call) && CleansUp(cfg, w, e.call, env)
      && LeavesQuota(cfg, CreatedWorld(cfg, w, e.call, env).0, env.uuid, env.writtenAgain, env)
    case RestartCall =>
      && Restart(w, env).quotas.Enabled?
      && var read := ReadTable(w.quotas.text, w.files - env.lost, env.quota);
         exists d :: d in read && d !in Paths(cfg, Restored(w).volumes)
    case _ => false
  }

  /** The step stores a volume that stays and has no quota, or a restart does not read the quota of a
      recalled volume. */
  ghost predicate StepMissesQuota(cfg: Config, w: World, e: Event)
  {
    var env := e.env;
    match e.call
    case CreateVolumeCall(_, _, size, kind, _) =>
      && Creates(cfg, w, e.call) && Stores(cfg, w, size, kind, env)
      && MissesQuota(w.quotas, PathOf(cfg, env.uuid), env)
      && !(CleansUp(cfg, w, e.call, env) && Releases(CreatedWorld(cfg, w, e.call, env).0.res.volumes, env.uuid, env))
    case NodePublishCall(id, _, _, _, _, _, kind) =>
      && NeedsVolume(cfg, w, e.call) && Stores(cfg, w, EPHEMERAL_SIZE, kind, env)
      && MissesQuota(w.quotas, PathOf(cfg, id), env)
    case RestartCall =>
      var read := ReadTable(w.quotas.text, w.files - env.lost, env.quota);
      !(Paths(cfg, Restored(w).volumes) <= if Restart(w, env).quotas.Enabled? then read.Keys else {})
    case _ => false
  }

  /** What a step does to the two, exactly. */
  ghost predicate TableStep(cfg: Config, w: World, e: Event)
  {
    var w' := Step(cfg, w, e);
    && (Covered(cfg, w) ==> (Covered(cfg, w') <==> !StepLeavesQuota(cfg, w, e)))
    && (Quotaed(cfg, w) ==> (Quotaed(cfg, w') <==> !StepMissesQuota(cfg, w, e)))
  }

  lemma CreateVolumeTable(cfg: Config, w: World, e: Event)
    requires SoundWorld(cfg, w) && e.call.CreateVolumeCall?
    ensures TableStep(cfg, w, e)
  {
    hide SoundWorld, Covered, LeavesQuota, Step, Allocate, Release, CleansUp, Stores, MissesQuota, PathOf, PathsBy,
      Releases;
    var c, env, w1 := e.call, e.env, CreatedWorld(cfg, w, e.call, e.env).0;
    CreateStep(cfg, w, e);
    if Creates(cfg, w, c) {
      var access := RequestedAccess(c.caps);
      AllocateTable(cfg, w, env.uuid, c.name, c.size, access, false, c.kind, env);
      AllocateDisk(cfg, w, env.uuid, c.name, c.size, access, false, c.kind, env);
      CreatedMeans(cfg, w, c, env);
      CreatedSound(cfg, w, c, env);
      SoundMeansUnique(cfg, w1);
      ReleaseTable(cfg, w1, env.uuid, env.writtenAgain, env);
    }
  }

  lemma DeleteVolumeTable(cfg: Config, w: World, e: Event)
    requires SoundWorld(cfg, w) && e.call.DeleteVolumeCall?
    ensures TableStep(cfg, w, e)
  {
    hide SoundWorld, Covered, Quotaed, LeavesQuota, Step, Release, Deletes;
    DeleteStep(cfg, w, e);
    SoundMeansUnique(cfg, w);
    ReleaseTable(cfg, w, e.call.id, e.env.written, e.env);
  }

  lemma NodePublishTable(cfg: Config, w: World, e: Event)
    requires e.call.NodePublishCall?
    ensures TableStep(cfg, w, e)
  {
    hide Covered, Quotaed, TableKept, Step, Allocate, NeedsVolume;
    var c, w1 := e.call, PublishWorld(cfg, w, e.call, e.env);
    AllocateTable(cfg, w, c.id, EphemeralName(c.id), EPHEMERAL_SIZE, MountAccess, true, c.kind, e.env);
    PublishedKept(cfg, w, e);
    KeptMeans(cfg, w1, Step(cfg, w, e));
  }

  lemma OtherMountsKept(cfg: Config, w: World, mounts: set<string>)
    ensures TableKept(cfg, w, w.(mounts := mounts))
  {
  }

  lemma SameLeavesQuota(cfg: Config, w: World, mounts: set<string>, id: string, written: bool, env: Env)
    ensures LeavesQuota(cfg, w.(mounts := mounts), id, written, env) <==> LeavesQuota(cfg, w, id, written, env)
  {
  }

  lemma UnpublishTable(cfg: Config, w: World, e: Event)
    requires SoundWorld(cfg, w) && e.call.NodeUnpublishCall?
    ensures TableStep(cfg, w, e)
  {
    hide SoundWorld, Covered, Quotaed, TableKept, LeavesQuota, Step, Release, SaveVolume;
    var c, env, w1 := e.call, e.env, w.(mounts := w.mounts - {e.call.target});
    UnpublishStep(cfg, w, e);
    SoundMeansUnique(cfg, w);
    OtherMountsKept(cfg, w, w1.mounts);
    KeptMeans(cfg, w, w1);
    SameLeavesQuota(cfg, w, w1.mounts, c.id, env.written, env);
    ReleaseTable(cfg, w1, c.id, env.written, env);
    if Unmounts(w, c, env) {
      var v' := UnpublishedAt(Find(w.res.volumes, VolumeID, c.id).value, c.target);
      UpdateKept(cfg, w1, v', env.written);
      KeptMeans(cfg, w1, SaveVolume(w1, v', env.written));
    }
  }

  lemma KeptTable(cfg: Config, w: World, e: Event)
    requires (EditsVolume(e.call) || ForSnapshots(e.call) || e.call.NodeExpandCall?)
    ensures TableStep(cfg, w, e)
  {
    hide Covered, Quotaed, TableKept, Step;
    if EditsVolume(e.call) {
      EditKept(cfg, w, e);
    } else {
      SnapshotStepKept(cfg, w, e);
    }
    KeptMeans(cfg, w, Step(cfg, w, e));
  }

  /** Every call leaves every quota with its volume, exactly unless its deletion of a volume with a quota
      could not be written to the state file. */
  lemma CallTable(cfg: Config, w: World, e: Event)
    requires SoundWorld(cfg, w) && !e.call.RestartCall?
    ensures TableStep(cfg, w, e)
  {
    hide SoundWorld, TableStep;
    if e.call.CreateVolumeCall? {
      CreateVolumeTable(cfg, w, e);
    } else if e.call.DeleteVolumeCall? {
      DeleteVolumeTable(cfg, w, e);
    } else if e.call.NodePublishCall? {
      NodePublishTable(cfg, w, e);
    } else if e.call.NodeUnpublishCall? {
      UnpublishTable(cfg, w, e);
    } else {
      KeptTable(cfg, w, e);
    }
  }

  // ---------- restarts ----------

  lemma RestartCoveredIff(cfg: Config, w: World, e: Event)
    requires e.call.RestartCall?
    ensures Covered(cfg, Step(cfg, w, e)) <==> !StepLeavesQuota(cfg, w, e)
    ensures Quotaed(cfg, Step(cfg, w, e)) <==> !StepMissesQuota(cfg, w, e)
  {
    hide Started, ReadTable, Mirrors, Paths;
    StartedReads(w.quotas.text, w.files - e.env.lost, e.env.quota);
  }

  /** A step leaves every quota directory with its volume exactly unless its deletion of a volume with a
      quota could not be written, or it is a restart from a state file without that volume. */
  lemma StepCoveredIff(cfg: Config, w: World, e: Event)
    requires SoundWorld(cfg, w) && Covered(cfg, w)
    ensures Covered(cfg, Step(cfg, w, e)) <==> !StepLeavesQuota(cfg, w, e)
  {
    hide SoundWorld, Covered, Quotaed, StepLeavesQuota, Step;
    if e.call.RestartCall? {
      RestartCoveredIff(cfg, w, e);
    } else {
      CallTable(cfg, w, e);
    }
  }

  /** A step leaves every stored volume with a quota exactly unless it stores one whose state write fails
      (repeating the request then finds it by name and never sets a quota), whose quota command fails or for
      which there are no quotas, and does not delete it again; or a restart does not read its quota. */
  lemma StepQuotaedIff(cfg: Config, w: World, e: Event)
    requires SoundWorld(cfg, w) && Quotaed(cfg, w)
    ensures Quotaed(cfg, Step(cfg, w, e)) <==> !StepMissesQuota(cfg, w, e)
  {
    hide SoundWorld, Covered, Quotaed, StepMissesQuota, Step;
    if e.call.RestartCall? {
      RestartCoveredIff(cfg, w, e);
    } else {
      CallTable(cfg, w, e);
    }
  }

  // ---------- what the projects file lists ----------

  /** Whatever exists and is listed in the projects file is the path of a stored volume. */
  ghost predicate ListsVolumes(cfg: Config, w: World) {
    forall d :: d in w.files && Listed(w.quotas.text, d) ==> d in Paths(cfg, w.res.volumes)
  }

  /** A restart from an up-to-date state file reads only quotas of stored volumes. */
  lemma CleanRestart(cfg: Config, w: World, e: Event)
    requires e.call.RestartCall? && ListsVolumes(cfg, w) && Mirrored(w) && w.clean
    ensures !StepLeavesQuota(cfg, w, e)
  {
    hide Started, PathsBy, Listed, Parse;
    assert Restored(w).volumes == w.res.volumes;
    var existing := w.files - e.env.lost;
    forall d | d in ReadTable(w.quotas.text, existing, e.env.quota) ensures d in Paths(cfg, w.res.volumes) {
      ParseKeys(w.quotas.text, existing, d);
    }
  }

  /** A dump lists the table, and one that fails what was listed before. */
  ghost predicate ListsNoMore(q: Quotas, q': Quotas, dir: string) {
    forall d :: Listed(q'.text, d) ==> Listed(q.text, d) || d in TableOf(q) || d == dir
  }

  lemma DumpedLists(q: Quotas, written: bool, visit: Visit)
    requires q.Enabled? && AllPlain(q.table)
    ensures forall d :: Listed(Dumped(q, written, visit).text, d) ==> Listed(q.text, d) || d in q.table
  {
    hide Listed, Print, Plain;
    var order := visit(q.table);
    assert IsOrder(order, q.table);
    forall d ensures Listed(Print(order, q.table), d) <==> d in q.table {
      PrintedLists(order, q.table, d);
    }
  }

  lemma AddedPlain(ds: Directories, dir: string, cap: string, ok: bool)
    requires AllPlain(ds) && Plain(dir, cap)
    ensures AllPlain(Added(ds, dir, cap, ok)) && Added(ds, dir, cap, ok).Keys <= ds.Keys + {dir}
  {
    hide Plain, LeastFree;
  }

  lemma AddingLists(q: Quotas, dir: string, cap: string, o: Outcomes)
    requires AllPlain(TableOf(q)) && Plain(dir, cap)
    ensures ListsNoMore(q, Adding(q, dir, cap, o), dir) && AllPlain(TableOf(Adding(q, dir, cap, o)))
  {
    hide Listed, Plain, AllPlain, Added, Dumped;
    if q.Enabled? {
      AddedPlain(q.table, dir, cap, o.projectOK);
      var q1 := Changed(q, Added(q.table, dir, cap, o.projectOK));
      DumpedLists(q1, o.limitWritten, o.visit);
      StaysEnabled(q1, o.limitWritten, o.visit);
      var q2 := if o.limitOK then Dumped(q1, o.limitWritten, o.visit) else q1;
      DumpedLists(q2, o.addWritten, o.visit);
      StaysEnabled(q2, o.addWritten, o.visit);
    }
  }

  lemma RemovingLists(q: Quotas, dir: string, o: Outcomes)
    requires AllPlain(TableOf(q))
    ensures ListsNoMore(q, Removing(q, dir, o), dir)
  {
    hide Listed, Plain, Dumped;
    if q.Enabled? {
      DumpedLists(Changed(q, q.table - {dir}), o.removeWritten, o.visit);
    }
  }

  lemma ResizingLists(q: Quotas, dir: string, cap: string, o: Outcomes)
    requires AllPlain(TableOf(q)) && Plain(dir, cap)
    ensures forall d :: Listed(Resizing(q, dir, cap, o).0.text, d) ==> Listed(q.text, d) || d in TableOf(q)
  {
    hide Listed, Plain, Dumped;
    if q.Enabled? {
      DumpedLists(Changed(q, Resized(q.table, dir, cap)), o.limitWritten, o.visit);
    }
  }

  /** Table and file name only volumes, where the file names anything that exists. */
  ghost predicate Accounted(cfg: Config, w: World) {
    Covered(cfg, w) && ListsVolumes(cfg, w) && AllPlain(TableOf(w.quotas))
  }

  /** The paths of the archives that a call may make. */
  ghost function NewArchives(cfg: Config, env: Env): set<string> {
    {SnapshotPathOf(cfg, env.uuid)} + set i | 0 <= i < |env.memberIDs| :: SnapshotPathOf(cfg, env.memberIDs[i])
  }

  /** IDs and state directory are printable, and the projects file lists no path of a new ID. */
  ghost predicate Traceless(cfg: Config, w: World, e: Event) {
    && Tame(cfg, e) && !Listed(w.quotas.text, PathOf(cfg, e.env.uuid))
    && forall p :: p in NewArchives(cfg, e.env) ==> !Listed(w.quotas.text, p)
  }

  lemma AllocateLists(cfg: Config, w: World, id: string, name: string, size: int64, access: AccessType,
                      ephemeral: bool, kind: string, env: Env)
    requires Accounted(cfg, w) && Plain(PathOf(cfg, id), SizeText(size as real))
    requires access == BlockAccess ==> !Listed(w.quotas.text, PathOf(cfg, id))
    ensures Accounted(cfg, Allocate(cfg, w, id, name, size, access, ephemeral, kind, env).0)
  {
    hide Adding, Allocate, PathsBy, PathOf, SizeText, Stores, Listed, Plain, AllPlain;
    AllocateDisk(cfg, w, id, name, size, access, ephemeral, kind, env);
    AllocateQuota(cfg, w, id, name, size, access, ephemeral, kind, env);
    AllocateTable(cfg, w, id, name, size, access, ephemeral, kind, env);
    AddingLists(w.quotas, PathOf(cfg, id), SizeText(size as real), env.quota);
  }

  lemma RemovedPlain(q: Quotas, dir: string, o: Outcomes)
    requires AllPlain(TableOf(q))
    ensures AllPlain(TableOf(Removing(q, dir, o)))
  {
    hide Plain, Print, IsOrder;
  }

  lemma ReleaseLists(cfg: Config, w: World, id: string, written: bool, env: Env)
    requires Accounted(cfg, w) && Unique(w.res.volumes, VolumeID) && !LeavesQuota(cfg, w, id, written, env)
    ensures Accounted(cfg, Release(cfg, w, id, written, env).0)
  {
    hide Removing, Release, PathsBy, PathOf, Removable, Listed, AllPlain, Find;
    ReleaseDisk(cfg, w, id, written, env);
    ReleaseQuota(cfg, w, id, written, env);
    ReleaseTable(cfg, w, id, written, env);
    RemovingLists(w.quotas, PathOf(cfg, id), env.quota);
    RemovedPlain(w.quotas, PathOf(cfg, id), env.quota);
  }

  /** Steps that leave volumes and quotas alone and make no listed path. */
  lemma KeptLists(cfg: Config, w: World, w': World)
    requires Accounted(cfg, w) && w'.quotas == w.quotas
    requires Paths(cfg, w'.res.volumes) == Paths(cfg, w.res.volumes)
    requires forall d :: d in w'.files && d !in w.files ==> !Listed(w.quotas.text, d)
    ensures Accounted(cfg, w')
  {
    hide PathsBy, Listed, Plain;
  }

  lemma CreateGroupAdds(cfg: Config, w: World, name: string, sources: seq<string>, env: Env)
    requires |sources| <= |env.memberIDs|
    ensures CreateGroup(cfg, w, name, sources, env).0.files <= w.files + NewArchives(cfg, env)
  {
    hide PathOf, IndexBy, Put, AddMembers, PathsBy;
    AddMembersDisk(cfg, w, name, sources, 0, env);
  }

  lemma SnapshotStepAdds(cfg: Config, w: World, e: Event)
    requires ForSnapshots(e.call)
    ensures Step(cfg, w, e).files <= w.files + NewArchives(cfg, e.env)
  {
    hide PathOf, IndexBy, Put, Drop, DropMembers, CreateGroup;
    var c, env := e.call, e.env;
    if c.CreateGroupCall? && |c.sources| <= |env.memberIDs| {
      CreateGroupAdds(cfg, w, c.name, c.sources, env);
    } else if c.DeleteGroupCall? && Find(w.res.groups, GroupID, c.id).Some? {
      DropMembersOnly(cfg, w, Find(w.res.groups, GroupID, c.id).value.snapshotIDs, 0, env);
    }
  }

  lemma {:induction false} DropMembersOnly(cfg: Config, w: World, ids: seq<string>, i: nat, env: Env)
    requires i <= |ids|
    ensures DropMembers(cfg, w, ids, i, env).0.files <= w.files
    decreases |ids| - i
  {
    hide SnapshotPathOf, IndexBy;
    if i < |ids| {
      DropMembersOnly(cfg, DropAt(cfg, w, ids, i, env), ids, i + 1, env);
    }
  }

  lemma CreateVolumeLists(cfg: Config, w: World, e: Event)
    requires SoundWorld(cfg, w) && e.call.CreateVolumeCall? && Accounted(cfg, w) && Traceless(cfg, w, e)
    requires !StepLeavesQuota(cfg, w, e)
    ensures Accounted(cfg, Step(cfg, w, e))
  {
    hide SoundWorld, Accounted, LeavesQuota, Step, Allocate, Release, Creates, CleansUp, Tame, Plain, PathOf, SizeText;
    var c, env, w1 := e.call, e.env, CreatedWorld(cfg, w, e.call, e.env).0;
    CreateStep(cfg, w, e);
    TameEntry(cfg, e);
    if Creates(cfg, w, c) {
      AllocateLists(cfg, w, env.uuid, c.name, c.size, RequestedAccess(c.caps), false, c.kind, env);
      CreatedSound(cfg, w, c, env);
      SoundMeansUnique(cfg, w1);
      if CleansUp(cfg, w, c, env) {
        ReleaseLists(cfg, w1, env.uuid, env.writtenAgain, env);
      }
    }
  }

  lemma DeleteVolumeLists(cfg: Config, w: World, e: Event)
    requires SoundWorld(cfg, w) && e.call.DeleteVolumeCall? && Accounted(cfg, w) && !StepLeavesQuota(cfg, w, e)
    ensures Accounted(cfg, Step(cfg, w, e))
  {
    hide SoundWorld, Accounted, LeavesQuota, Step, Release, Deletes;
    DeleteStep(cfg, w, e);
    SoundMeansUnique(cfg, w);
    if Deletes(cfg, w, e.call) {
      ReleaseLists(cfg, w, e.call.id, e.env.written, e.env);
    }
  }

  lemma UnpublishLists(cfg: Config, w: World, e: Event)
    requires SoundWorld(cfg, w) && e.call.NodeUnpublishCall? && Accounted(cfg, w) && !StepLeavesQuota(cfg, w, e)
    ensures Accounted(cfg, Step(cfg, w, e))
  {
    hide SoundWorld, Accounted, LeavesQuota, Step, Release, SaveVolume, PathsBy;
    var c, env, w1 := e.call, e.env, w.(mounts := w.mounts - {e.call.target});
    UnpublishStep(cfg, w, e);
    KeptLists(cfg, w, w1);
    if Unmounts(w, c, env) && env.targetRemoved {
      var v := Find(w.res.volumes, VolumeID, c.id).value;
      SoundMeansUnique(cfg, w);
      SameLeavesQuota(cfg, w, w1.mounts, c.id, env.written, env);
      if v.ephemeral {
        ReleaseLists(cfg, w1, c.id, env.written, env);
      } else {
        SavedLists(cfg, w1, UnpublishedAt(v, c.target), env.written);
      }
    }
  }

  lemma SavedLists(cfg: Config, w: World, v: Volume, written: bool)
    requires Accounted(cfg, w) && Find(w.res.volumes, VolumeID, v.id).Some?
    ensures Accounted(cfg, SaveVolume(w, v, written))
  {
    hide Accounted, PathsBy, Put;
    UpdateDisk(cfg, w, v, written);
    KeptLists(cfg, w, SaveVolume(w, v, written));
  }

  lemma PublishLists(cfg: Config, w: World, e: Event)
    requires e.call.NodePublishCall? && Accounted(cfg, w) && Tame(cfg, e)
    ensures Accounted(cfg, Step(cfg, w, e))
  {
    hide Accounted, Step, Allocate, NeedsVolume, Recordable, LosesDirectory, SaveVolume, Tame, Plain, SizeText, PathsBy;
    var c, w1 := e.call, PublishWorld(cfg, w, e.call, e.env);
    PublishStep(cfg, w, e);
    TameEntry(cfg, e);
    AllocateLists(cfg, w, c.id, EphemeralName(c.id), EPHEMERAL_SIZE, MountAccess, true, c.kind, e.env);
    KeptLists(cfg, w1, RefusedWorld(cfg, w, c, e.env));
    if Publishes(cfg, w, c, e.env) {
      PublishesMeans(cfg, w, c, e.env);
      var v := Find(w1.res.volumes, VolumeID, c.id).value;
      KeptLists(cfg, w1, MountedWorld(w1, c));
      SavedLists(cfg, MountedWorld(w1, c), PublishedAt(cfg, v, c.target), e.env.writtenAgain);
    }
  }

  lemma ExpandLists(cfg: Config, w: World, e: Event)
    requires e.call.NodeExpandCall? && Accounted(cfg, w) && Tame(cfg, e)
    ensures Accounted(cfg, Step(cfg, w, e))
  {
    hide Resizing, SizeText, Listed, Plain, AllPlain, Tame, PathsBy, IndexBy, PathOf;
    var size: int64 := if e.call.capRange.Some? then e.call.capRange.value else 0;
    TameEntry(cfg, e);
    CallPlain(cfg, w, e);
    ResizingKeys(w.quotas, PathOf(cfg, e.call.id), SizeText(size as real), e.env.quota);
    ResizingLists(w.quotas, PathOf(cfg, e.call.id), SizeText(size as real), e.env.quota);
  }

  lemma OtherLists(cfg: Config, w: World, e: Event)
    requires (EditsVolume(e.call) || ForSnapshots(e.call)) && Accounted(cfg, w) && Traceless(cfg, w, e)
    ensures Accounted(cfg, Step(cfg, w, e))
  {
    hide Accounted, Step, SaveVolume, Listed, Tame, PathsBy, SnapshotPathOf, PathOf, Edited;
    if EditsVolume(e.call) {
      var v := EditStep(cfg, w, e);
      if Step(cfg, w, e) != w {
        EditedStored(cfg, w.res.volumes, v, e.call);
        SavedLists(cfg, w, v, e.env.written);
      }
    } else {
      SnapshotStepKeepsVolumes(cfg, w, e);
      SnapshotStepAdds(cfg, w, e);
      KeptLists(cfg, w, Step(cfg, w, e));
    }
  }

  lemma RestartLists(cfg: Config, w: World, e: Event)
    requires e.call.RestartCall? && Accounted(cfg, w) && Mirrored(w) && w.clean
    ensures Accounted(cfg, Step(cfg, w, e))
  {
    hide Started, PathsBy, Listed, Parse, Plain, Mirrors, StepLeavesQuota;
    CleanRestart(cfg, w, e);
    RestartCoveredIff(cfg, w, e);
    var existing, o, q := w.files - e.env.lost, e.env.quota, Step(cfg, w, e).quotas;
    assert Restored(w).volumes == w.res.volumes;
    StartedReads(w.quotas.text, existing, o);
    ParsedPlain(w.quotas.text, existing);
    forall d | d in existing && Listed(q.text, d) ensures Listed(w.quotas.text, d) {
      StartedLists(w.quotas.text, existing, o, d);
    }
  }

  /** A start, also one that fails half way, leaves nothing in the file that was not there. */
  lemma StartedLists(text: string, existing: set<string>, o: Outcomes, d: string)
    requires Listed(Started(text, existing, o).text, d)
    ensures Listed(text, d)
  {
    hide Started, Listed, Parse, Plain, Print;
    var after, ds := Started(text, existing, o).text, ReadTable(text, existing, o);
    StartedReads(text, existing, o);
    if after != text {
      ParsedPlain(text, existing);
      var t :| SubTable(t, ds) && Mirrors(after, t);
      var order :| IsOrder(order, t) && after == Print(order, t);
      PrintedLists(order, t, d);
      ParseKeys(text, existing, d);
    }
  }

  // ---------- runs ----------

  /** A deletion of a volume with a quota is written, a restart comes after a good state write, and new
      IDs are new to the projects file. */
  ghost predicate TakesQuotas(cfg: Config, w: World, e: Event) {
    Settled(w, e) && Traceless(cfg, w, e) && (!e.call.RestartCall? ==> !StepLeavesQuota(cfg, w, e))
  }

  ghost predicate QuotasTaken(cfg: Config, w: World, es: seq<Event>)
    decreases |es|
  {
    es == [] || (TakesQuotas(cfg, w, es[0]) && QuotasTaken(cfg, Step(cfg, w, es[0]), es[1..]))
  }

  lemma StepAccounted(cfg: Config, w: World, e: Event)
    requires SoundWorld(cfg, w) && Mirrored(w) && Accounted(cfg, w) && TakesQuotas(cfg, w, e)
    ensures Accounted(cfg, Step(cfg, w, e))
  {
    hide SoundWorld, Mirrored, Accounted, StepLeavesQuota, Step, Tame, Listed, NewArchives, PathOf;
    match e.call {
      case CreateVolumeCall(_, _, _, _, _) => CreateVolumeLists(cfg, w, e);
      case DeleteVolumeCall(_) => DeleteVolumeLists(cfg, w, e);
      case NodePublishCall(_, _, _, _, _, _, _) => PublishLists(cfg, w, e);
      case NodeUnpublishCall(_, _) => UnpublishLists(cfg, w, e);
      case NodeExpandCall(_, _, _) => ExpandLists(cfg, w, e);
      case RestartCall => RestartLists(cfg, w, e);
      case _ => OtherLists(cfg, w, e);
    }
  }

  lemma {:induction false} RunAccounted(cfg: Config, w: World, es: seq<Event>)
    requires SoundWorld(cfg, w) && Mirrored(w) && Accounted(cfg, w)
    requires PossibleRun(cfg, w, es) && QuotasTaken(cfg, w, es)
    ensures Accounted(cfg, Run(cfg, w, es))
    decreases |es|
  {
    hide SoundWorld, Mirrored, Accounted, TakesQuotas, Possible;
    if es != [] {
      StepAccounted(cfg, w, es[0]);
      StepSound(cfg, w, es[0]);
      StepMirrored(cfg, w, es[0]);
      RunAccounted(cfg, Step(cfg, w, es[0]), es[1..]);
    }
  }

  /** Where deletions get written and restarts are settled, every quota directory belongs to a stored volume
      at all times, whatever becomes of quota commands, the projects file and the files of the node. */
  lemma ReachableCovered(cfg: Config, w: World, es: seq<Event>)
    requires Initial(w) && PossibleRun(cfg, w, es) && QuotasTaken(cfg, w, es)
    ensures var w' := Run(cfg, w, es); TableOf(w'.quotas).Keys <= Paths(cfg, w'.res.volumes)
  {
    EmptySound(cfg);
    RunAccounted(cfg, w, es);
  }

  // ---------- runs in which quotas are set ----------

  /** The restart recalls every volume and finds its path and its quota. */
  ghost predicate RestoresQuotas(cfg: Config, w: World, env: Env) {
    && w.clean && w.quotas.Enabled? && w.quotas.clean
    && env.quota.readOK && Restart(w, env).quotas.Enabled?
    && Paths(cfg, w.res.volumes) <= w.files - env.lost
  }

  /** A call leaves no quota without volume and no volume without quota; a restart restores all. */
  ghost predicate KeepsQuotas(cfg: Config, w: World, e: Event) {
    && Tame(cfg, e)
    && if e.call.RestartCall? then RestoresQuotas(cfg, w, e.env)
       else !StepLeavesQuota(cfg, w, e) && !StepMissesQuota(cfg, w, e)
  }

  ghost predicate QuotasKept(cfg: Config, w: World, es: seq<Event>)
    decreases |es|
  {
    es == [] || (KeepsQuotas(cfg, w, es[0]) && QuotasKept(cfg, Step(cfg, w, es[0]), es[1..]))
  }

  /** Quotas and volumes agree, in a table that can be printed and a file that mirrors it when up to date. */
  ghost predicate InStep(cfg: Config, w: World) {
    Covered(cfg, w) && Quotaed(cfg, w) && AllPlain(TableOf(w.quotas)) && FileMirrors(w.quotas)
  }

  lemma CallInStep(cfg: Config, w: World, e: Event)
    requires SoundWorld(cfg, w) && InStep(cfg, w) && !e.call.RestartCall?
    requires KeepsQuotas(cfg, w, e)
    ensures InStep(cfg, Step(cfg, w, e))
  {
    hide SoundWorld, Covered, Quotaed, Tame, StepLeavesQuota, StepMissesQuota, AllPlain, FileMirrors, Step;
    StepCoveredIff(cfg, w, e);
    StepQuotaedIff(cfg, w, e);
    CallPlain(cfg, w, e);
    StepFileMirrors(cfg, w, e);
  }

  lemma RestartInStep(cfg: Config, w: World, e: Event)
    requires InStep(cfg, w) && Mirrored(w) && e.call.RestartCall? && RestoresQuotas(cfg, w, e.env)
    ensures InStep(cfg, Step(cfg, w, e))
  {
    hide Started, Mirrors, Parse, Plain, PathsBy;
    var existing := w.files - e.env.lost;
    StartedReads(w.quotas.text, existing, e.env.quota);
    ReloadKeepsTable(w.quotas.text, w.quotas.table, existing);
    assert Restored(w).volumes == w.res.volumes;
  }

  lemma {:induction false} RunInStep(cfg: Config, w: World, es: seq<Event>)
    requires SoundWorld(cfg, w) && Mirrored(w) && InStep(cfg, w)
    requires PossibleRun(cfg, w, es) && QuotasKept(cfg, w, es)
    ensures InStep(cfg, Run(cfg, w, es))
    decreases |es|
  {
    hide SoundWorld, Mirrored, InStep, Possible, RestoresQuotas, StepLeavesQuota, StepMissesQuota, Tame;
    if es != [] {
      StepSound(cfg, w, es[0]);
      StepMirrored(cfg, w, es[0]);
      if es[0].call.RestartCall? {
        RestartInStep(cfg, w, es[0]);
      } else {
        CallInStep(cfg, w, es[0]);
      }
      RunInStep(cfg, Step(cfg, w, es[0]), es[1..]);
    }
  }

  /** On all runs whose calls leave no quota and miss none, and whose restarts restore all, the quota
      directories are exactly the paths of stored volumes, whatever becomes of limit commands, other dumps,
      mounts and removals. Where files are spared too, what exists is these and the archives. */
  lemma ReachableQuotas(cfg: Config, w: World, es: seq<Event>)
    requires Initial(w) && w.quotas.Enabled? && PossibleRun(cfg, w, es) && QuotasKept(cfg, w, es)
    ensures var w' := Run(cfg, w, es);
      && TableOf(w'.quotas).Keys == Paths(cfg, w'.res.volumes)
      && (BackingSpared(cfg, w, es) ==> Paths(cfg, w'.res.volumes) <= w'.files)
      && (BackingSpared(cfg, w, es) && ArchivesSpared(cfg, w, es) && NothingLeft(cfg, w, es) ==>
            w'.files == TableOf(w'.quotas).Keys + Archives(cfg, w'.res.snapshots))
  {
    EmptySound(cfg);
    InitialFile(w);
    RunInStep(cfg, w, es);
    ReachableFiles(cfg, w, es);
  }

  // ----- calls that keep quotas -----

  /** With successful state writes and project commands, where there are quotas, every call does. */
  lemma WrittenLeavesAndMissesNothing(cfg: Config, w: World, e: Event)
    requires !e.call.RestartCall? && w.quotas.Enabled?
    requires e.env.written && e.env.writtenAgain && e.env.quota.projectOK
    ensures !StepLeavesQuota(cfg, w, e) && !StepMissesQuota(cfg, w, e)
  {
    hide CleansUp, Creates, Deletes, Unmounts, Stores, NeedsVolume;
  }

  lemma StaysOn(cfg: Config, w: World, e: Event)
    requires !e.call.RestartCall?
    ensures Step(cfg, w, e).quotas.Enabled? <==> w.quotas.Enabled?
  {
    hide Step, SizeText, PathOf;
    QuotaStep(cfg, w, e);
    var dir, cap := PathOf(cfg, QuotaID(e)), SizeText(QuotaSize(e.call) as real);
    ChangeStaysOn(w.quotas, Step(cfg, w, e).quotas, dir, cap, e.env.quota);
  }

  lemma ChangeStaysOn(q: Quotas, q': Quotas, dir: string, cap: string, o: Outcomes)
    requires QuotaChange(q, q', dir, cap, o)
    ensures q'.Enabled? <==> q.Enabled?
  {
    hide IsOrder, Print, LeastFree;
  }

  predicate QuotasSucceed(o: Outcomes) {
    && o.projectOK && o.limitOK && o.limitWritten && o.addWritten && o.removeWritten
    && o.available && o.readOK && o.failing == {} && forall i :: 0 <= i < |o.restoreWrites| ==> o.restoreWrites[i]
  }

  /** In every run without a restart the quota directories are the paths of stored volumes as long as state
      writes and project commands succeed, whatever else fails. */
  lemma {:induction false} RunAgrees(cfg: Config, w: World, es: seq<Event>)
    requires SoundWorld(cfg, w) && Covered(cfg, w) && Quotaed(cfg, w) && w.quotas.Enabled? && PossibleRun(cfg, w, es)
    requires forall i :: 0 <= i < |es| ==> !es[i].call.RestartCall?
    requires forall i :: 0 <= i < |es| ==> es[i].env.written && es[i].env.writtenAgain && es[i].env.quota.projectOK
    ensures TableOf(Run(cfg, w, es).quotas).Keys == Paths(cfg, Run(cfg, w, es).res.volumes)
    decreases |es|
  {
    hide SoundWorld, Possible, StepLeavesQuota, StepMissesQuota, PathsBy;
    if es != [] {
      WrittenLeavesAndMissesNothing(cfg, w, es[0]);
      StepCoveredIff(cfg, w, es[0]);
      StepQuotaedIff(cfg, w, es[0]);
      StaysOn(cfg, w, es[0]);
      StepSound(cfg, w, es[0]);
      RunAgrees(cfg, Step(cfg, w, es[0]), es[1..]);
    }
  }

  lemma StartSucceeds(text: string, existing: set<string>, o: Outcomes)
    requires QuotasSucceed(o)
    ensures Started(text, existing, o).Enabled?
  {
    hide IsOrder;
    var ds := ReadTable(text, existing, o);
    RestoreSucceedsIff(Enabled(ds, text, false), o.visit(ds), 0, existing, o);
  }

  // ---------- failed content ----------

  lemma AddedThenRemoved(q: Quotas, dir: string, cap: string, o: Outcomes)
    requires dir !in TableOf(q)
    ensures TableOf(Removing(Adding(q, dir, cap, o), dir, o)) == TableOf(q)
  {
    hide IsOrder, LeastFree;
  }

  /** A creation whose content cannot be loaded leaves volumes, directories and quotas as they were, when
      the cleanup succeeds. */
  lemma FailedLoadRestores(cfg: Config, w: World, e: Event)
    requires Covered(cfg, w) && Housed(DiskOf(cfg, w)) && Possible(cfg, w, e) && e.call.CreateVolumeCall?
    requires Creates(cfg, w, e.call) && CleansUp(cfg, w, e.call, e.env)
    requires e.env.writtenAgain && e.env.detachOK && e.env.removeOK
    ensures StepReply(cfg, w, e).1.Failed?
    ensures var w' := Step(cfg, w, e);
      w'.res == w.res && w'.files == w.files && TableOf(w'.quotas) == TableOf(w.quotas)
  {
    hide Adding, Removing, LeastFree, SizeText;
    var c, env := e.call, e.env;
    var dir := PathOf(cfg, env.uuid);
    NewPath(cfg, w, env.uuid);
    AddedThenRemoved(w.quotas, dir, SizeText(c.size as real), env.quota);
    match ChooseKind(cfg, w.res.volumes, c.size, c.kind, env.order) {
      case Refused(_) =>
      case Chosen(k) =>
        var v := NewVolume(cfg, env.uuid, c.name, c.size, RequestedAccess(c.caps), false, k);
        PutThenDrop(w.res.volumes, VolumeID, v);
        assert w.files + {dir} - {dir} == w.files;
    }
  }
}
