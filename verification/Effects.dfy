// What each RPC does to the state, in terms of one or two updates: the case analysis that the
// invariants of the volume list share.
module Effects {
  import opened Base
  import opened Lists
  import opened Sorting
  import opened State
  import opened Quota
  import opened Sizes
  import opened Driver

  // ---------- calls that change one stored volume where it is ----------

  predicate EditsVolume(c: Call) {
    || c.ControllerPublishCall? || c.ControllerUnpublishCall? || c.ControllerExpandCall?
    || c.NodeStageCall? || c.NodeUnstageCall?
  }

  /** The changes these calls make: attachment, size and staging, each under its checks. */
  ghost predicate Edited(cfg: Config, vs: seq<Volume>, v: Volume, c: Call) {
    var found := Find(vs, VolumeID, v.id);
    && found.Some?
    && var u := found.value;
    && v == u.(attached := v.attached, readOnlyAttach := v.readOnlyAttach, size := v.size, staged := v.staged)
    && (v.size == u.size || (c.ControllerExpandCall? && u.size < v.size <= cfg.maxVolumeSize))
    && (v.staged == u.staged || v.attached == u.attached)
    && |v.staged| <= |u.staged| + 1 && (|v.staged| > |u.staged| ==> u.staged == [])
    && (v.attached && !u.attached && cfg.attachLimit > 0 ==> SumBy(vs, AttachedBit) < cfg.attachLimit)
    && (u.attached && !v.attached && cfg.checkVolumeLifecycle ==> !InUse(u))
    && (u.staged == [] && v.staged != [] && cfg.enableAttach ==> u.attached)
    && (u.staged != [] && v.staged == [] ==> u.published == [])
  }

  lemma EditStep(cfg: Config, w: World, e: Event) returns (v: Volume)
    requires EditsVolume(e.call)
    ensures Step(cfg, w, e) == w
      || (Edited(cfg, w.res.volumes, v, e.call) && Step(cfg, w, e) == SaveVolume(w, v, e.env.written))
  {
    hide Step, Edited, SaveVolume, IndexBy;
    var found := Find(w.res.volumes, VolumeID, e.call.id);
    v := if found.None? then NewVolume(cfg, "", "", 0, MountAccess, false, "") else EditOf(found.value, e.call);
    if e.call.NodeStageCall? || e.call.NodeUnstageCall? {
      StagingEdit(cfg, w, e);
    } else {
      ControllerEdit(cfg, w, e);
    }
  }

  lemma ControllerEdit(cfg: Config, w: World, e: Event)
    requires EditsVolume(e.call) && !e.call.NodeStageCall? && !e.call.NodeUnstageCall?
    ensures Step(cfg, w, e) == w
      || (var found := Find(w.res.volumes, VolumeID, e.call.id);
          && found.Some? && Edited(cfg, w.res.volumes, EditOf(found.value, e.call), e.call)
          && Step(cfg, w, e) == SaveVolume(w, EditOf(found.value, e.call), e.env.written))
  {
    hide SaveVolume, Put, IndexBy;
    FoundHasID(w.res.volumes, e.call.id);
  }

  lemma StagingEdit(cfg: Config, w: World, e: Event)
    requires (e.call.NodeStageCall? || e.call.NodeUnstageCall?)
    ensures Step(cfg, w, e) == w
      || (var found := Find(w.res.volumes, VolumeID, e.call.id);
          && found.Some? && Edited(cfg, w.res.volumes, EditOf(found.value, e.call), e.call)
          && Step(cfg, w, e) == SaveVolume(w, EditOf(found.value, e.call), e.env.written))
  {
    hide SaveVolume, Put, IndexBy;
    var found := Find(w.res.volumes, VolumeID, e.call.id);
    FoundHasID(w.res.volumes, e.call.id);
    if found.Some? && e.call.NodeUnstageCall? && e.call.staging in found.value.staged {
      DroppedOne(found.value.staged, e.call.staging);
    }
  }

  function EditOf(u: Volume, c: Call): Volume
    requires EditsVolume(c)
  {
    match c
    case ControllerPublishCall(_, _, _, readonly) => u.(attached := true, readOnlyAttach := readonly)
    case ControllerUnpublishCall(_, _) => u.(attached := false)
    case ControllerExpandCall(_, capRange) => if capRange.Some? then u.(size := capRange.value) else u
    case NodeStageCall(_, staging, _) => u.(staged := u.staged + [staging])
    case NodeUnstageCall(_, staging) => u.(staged := Drop(u.staged, Self, staging))
  }

  lemma FoundHasID(vs: seq<Volume>, id: string)
    ensures Find(vs, VolumeID, id).Some? ==> Find(vs, VolumeID, id).value.id == id
  {
  }

  lemma DroppedOne(s: seq<string>, x: string)
    ensures |Drop(s, Self, x)| <= |s|
  {
  }

  // ---------- creation and deletion ----------

  /** The request is valid and names a new volume. */
  ghost predicate Creates(cfg: Config, w: World, c: Call)
    requires c.CreateVolumeCall?
  {
    && !cfg.ephemeral && c.name != "" && c.caps != [] && !(Block in c.caps && Mount in c.caps)
    && Find(w.res.volumes, VolumeName, c.name).None?
  }

  ghost function CreatedWorld(cfg: Config, w: World, c: Call, env: Env): (World, Option<Code>)
    requires c.CreateVolumeCall?
  {
    Allocate(cfg, w, env.uuid, c.name, c.size, RequestedAccess(c.caps), false, c.kind, env)
  }

  /** The volume is there, but its content cannot be loaded. */
  ghost predicate CleansUp(cfg: Config, w: World, c: Call, env: Env)
    requires c.CreateVolumeCall?
  {
    var (w1, failure) := CreatedWorld(cfg, w, c, env);
    failure.None? && LoadContent(w1.res, c.size, c.source, RequestedAccess(c.caps), env.loadOK).Some?
  }

  lemma CreateStep(cfg: Config, w: World, e: Event)
    requires e.call.CreateVolumeCall?
    ensures var w1 := CreatedWorld(cfg, w, e.call, e.env).0;
      Step(cfg, w, e) ==
        if !Creates(cfg, w, e.call) then w
        else if CleansUp(cfg, w, e.call, e.env) then Release(cfg, w1, e.env.uuid, e.env.writtenAgain, e.env).0
        else w1
  {
    hide Allocate, Release;
  }

  /** The call gets as far as deleting the volume. */
  ghost predicate Deletes(cfg: Config, w: World, c: Call)
    requires c.DeleteVolumeCall?
  {
    var v := Find(w.res.volumes, VolumeID, c.id);
    && c.id != "" && !cfg.ephemeral && v.Some?
    && !((v.value.attached || InUse(v.value)) && cfg.checkVolumeLifecycle)
  }

  lemma DeleteStep(cfg: Config, w: World, e: Event)
    requires e.call.DeleteVolumeCall?
    ensures Step(cfg, w, e) == if Deletes(cfg, w, e.call) then Release(cfg, w, e.call.id, e.env.written, e.env).0 else w
  {
    hide Release;
  }

  // ---------- publishing and unpublishing ----------

  ghost predicate NeedsVolume(cfg: Config, w: World, c: Call)
    requires c.NodePublishCall?
  {
    && c.cap.Some? && c.id != "" && c.target != ""
    && WantsEphemeral(cfg, c.context) && Find(w.res.volumes, VolumeName, EphemeralName(c.id)).None?
  }

  /** World in which NodePublish looks for its volume: an ephemeral one may have been created first. */
  ghost function PublishWorld(cfg: Config, w: World, c: Call, env: Env): World
    requires c.NodePublishCall?
  {
    if NeedsVolume(cfg, w, c)
    then Allocate(cfg, w, c.id, EphemeralName(c.id), EPHEMERAL_SIZE, MountAccess, true, c.kind, env).0
    else w
  }

  /** The request passes the argument checks and the allocation, if there is one, succeeds. */
  ghost predicate Admitted(cfg: Config, w: World, c: Call, env: Env)
    requires c.NodePublishCall?
  {
    && c.cap.Some? && c.id != "" && c.target != ""
    && (NeedsVolume(cfg, w, c) ==>
          Allocate(cfg, w, c.id, EphemeralName(c.id), EPHEMERAL_SIZE, MountAccess, true, c.kind, env).1.None?)
  }

  /** Publishing records the target: nothing refuses it and it was not mounted already. */
  predicate Recordable(cfg: Config, w: World, v: Volume, c: Call, ephemeral: bool, env: Env)
    requires c.NodePublishCall? && c.cap.Some?
  {
    && PublishRefusal(v, c.target, c.staging, c.singleWriter, ephemeral).None?
    && MountReply(w.mounts, PathOf(cfg, c.id) in w.files, v.access, c.cap.value, c.target, env).None?
  }

  ghost predicate Publishes(cfg: Config, w: World, c: Call, env: Env)
    requires c.NodePublishCall?
  {
    var w1 := PublishWorld(cfg, w, c, env);
    var v := Find(w1.res.volumes, VolumeID, c.id);
    Admitted(cfg, w, c, env) && v.Some? && Recordable(cfg, w1, v.value, c, WantsEphemeral(cfg, c.context), env)
  }

  lemma PublishesMeans(cfg: Config, w: World, c: Call, env: Env)
    requires c.NodePublishCall? && Publishes(cfg, w, c, env)
    ensures c.cap.Some? && c.id != "" && c.target != ""
    ensures Find(PublishWorld(cfg, w, c, env).res.volumes, VolumeID, c.id).Some?
  {
  }

  /** Without an access type nothing is mounted. */
  function MountedWorld(w: World, c: Call): World
    requires c.NodePublishCall? && c.cap.Some?
  {
    if c.cap.value == NoAccessType then w else w.(mounts := w.mounts + {c.target})
  }

  function PublishedAt(cfg: Config, v: Volume, target: string): Volume {
    v.(nodeID := cfg.nodeID, published := v.published + [target])
  }

  /** Mounting an ephemeral volume fails, and its directory is removed. */
  ghost predicate LosesDirectory(cfg: Config, w: World, c: Call, env: Env)
    requires c.NodePublishCall?
  {
    var w1 := PublishWorld(cfg, w, c, env);
    var v := Find(w1.res.volumes, VolumeID, c.id);
    && Admitted(cfg, w, c, env) && v.Some?
    && PublishRefusal(v.value, c.target, c.staging, c.singleWriter, WantsEphemeral(cfg, c.context)).None?
    && RemovesDirectory(w1.mounts, PathOf(cfg, c.id) in w1.files, v.value, c.cap.value, c.target, env)
  }

  /** World after a publish that records nothing. */
  ghost function RefusedWorld(cfg: Config, w: World, c: Call, env: Env): World
    requires c.NodePublishCall?
  {
    var w1 := PublishWorld(cfg, w, c, env);
    w1.(files := if LosesDirectory(cfg, w, c, env) then w1.files - {PathOf(cfg, c.id)} else w1.files)
  }

  lemma PublishStep(cfg: Config, w: World, e: Event)
    requires e.call.NodePublishCall?
    ensures var c, w1 := e.call, PublishWorld(cfg, w, e.call, e.env);
      Step(cfg, w, e) ==
        if !Publishes(cfg, w, c, e.env) then RefusedWorld(cfg, w, c, e.env)
        else
          var v := Find(w1.res.volumes, VolumeID, c.id).value;
          SaveVolume(MountedWorld(w1, c), PublishedAt(cfg, v, c.target), e.env.writtenAgain)
  {
    hide Allocate, SaveVolume, PublishRefusal, MountReply, IndexBy;
  }

  /** The files are made and the volume enters the list, whether or not that can be written. */
  ghost predicate Stores(cfg: Config, w: World, size: int64, kind: string, env: Env) {
    ChooseKind(cfg, w.res.volumes, size, kind, env.order).Chosen? && env.filesOK
  }

  /** The volume list after a publish that had to store an ephemeral volume first. */
  lemma StoredAndPublished(cfg: Config, w: World, e: Event) returns (v: Volume)
    requires e.call.NodePublishCall?
    requires NeedsVolume(cfg, w, e.call) && Stores(cfg, w, EPHEMERAL_SIZE, e.call.kind, e.env)
    ensures v.id == e.call.id && v.name == EphemeralName(v.id) && v.ephemeral
    ensures Step(cfg, w, e).res.volumes == Put(w.res.volumes, VolumeID, v)
    ensures v.published == if Publishes(cfg, w, e.call, e.env) then [e.call.target] else []
    ensures var mounts := Step(cfg, w, e).mounts;
      mounts == w.mounts || (e.call.target in v.published && mounts == w.mounts + {e.call.target})
  {
    hide Step, Recordable;
    var c, env, w1 := e.call, e.env, PublishWorld(cfg, w, e.call, e.env);
    PublishStep(cfg, w, e);
    var k := ChooseKind(cfg, w.res.volumes, EPHEMERAL_SIZE, c.kind, env.order).kind;
    var v0 := NewVolume(cfg, c.id, EphemeralName(c.id), EPHEMERAL_SIZE, MountAccess, true, k);
    FindPut(w.res.volumes, VolumeID, v0, c.id);
    v := if Publishes(cfg, w, c, env) then PublishedAt(cfg, v0, c.target) else v0;
    PutTwice(w.res.volumes, VolumeID, v0, v);
  }

  /** The call gets as far as unmounting the target. */
  ghost predicate Unmounts(w: World, c: Call, env: Env)
    requires c.NodeUnpublishCall?
  {
    var v := Find(w.res.volumes, VolumeID, c.id);
    && c.id != "" && c.target != "" && v.Some? && c.target in v.value.published
    && env.checkOK && (c.target in w.mounts ==> env.unmountOK)
  }

  function UnpublishedAt(v: Volume, target: string): Volume { v.(published := Drop(v.published, Self, target)) }

  lemma UnpublishStep(cfg: Config, w: World, e: Event)
    requires e.call.NodeUnpublishCall?
    ensures var c, w1 := e.call, w.(mounts := w.mounts - {e.call.target});
      Step(cfg, w, e) ==
        if !Unmounts(w, c, e.env) then w
        else if !e.env.targetRemoved then w1
        else
          var v := Find(w.res.volumes, VolumeID, c.id).value;
          if v.ephemeral then Release(cfg, w1, c.id, e.env.written, e.env).0
          else SaveVolume(w1, UnpublishedAt(v, c.target), e.env.written)
  {
    hide Release, SaveVolume, IndexBy, Drop;
  }

  lemma ExpandQuotaStep(cfg: Config, w: World, e: Event)
    requires e.call.NodeExpandCall?
    ensures Step(cfg, w, e) == w.(quotas := Step(cfg, w, e).quotas)
  {
    hide Resizing, SizeText;
  }

  // ---------- steps that leave the volumes alone ----------

  predicate ForSnapshots(c: Call) {
    c.CreateSnapshotCall? || c.DeleteSnapshotCall? || c.CreateGroupCall? || c.DeleteGroupCall? || c.GetGroupCall?
  }

  /** The volume list, the mounts and the quotas stay, and whatever gets written has that list. */
  ghost predicate VolumesKept(w: World, w': World) {
    && w'.res.volumes == w.res.volumes
    && (w'.file == w.file || (w'.file.Some? && w'.file.value.volumes == w.res.volumes))
    && w'.mounts == w.mounts && w'.quotas == w.quotas
  }

  lemma {:induction false} AddMembersKeepVolumes(cfg: Config, w: World, name: string, sources: seq<string>, i: nat,
                                                 env: Env)
    requires i <= |sources| <= |env.memberIDs|
    ensures VolumesKept(w, AddMembers(cfg, w, name, sources, i, env).0)
    decreases |sources| - i
  {
    if i < |sources| && AddMember(cfg, w, name, sources[i], i, env).1.None? {
      AddMembersKeepVolumes(cfg, AddMember(cfg, w, name, sources[i], i, env).0, name, sources, i + 1, env);
    }
  }

  lemma {:induction false} DropMembersKeepVolumes(cfg: Config, w: World, ids: seq<string>, i: nat, env: Env)
    requires i <= |ids|
    ensures VolumesKept(w, DropMembers(cfg, w, ids, i, env).0)
    decreases |ids| - i
  {
    if i < |ids| {
      DropMembersKeepVolumes(cfg, DropAt(cfg, w, ids, i, env), ids, i + 1, env);
    }
  }

  lemma CreateGroupKeepsVolumes(cfg: Config, w: World, name: string, sources: seq<string>, env: Env)
    requires |sources| <= |env.memberIDs|
    ensures VolumesKept(w, CreateGroup(cfg, w, name, sources, env).0)
  {
    AddMembersKeepVolumes(cfg, w, name, sources, 0, env);
  }

  lemma DeleteGroupKeepsVolumes(cfg: Config, w: World, id: string, env: Env)
    ensures VolumesKept(w, DeleteGroup(cfg, w, id, env).0)
  {
    match Find(w.res.groups, GroupID, id) {
      case None =>
      case Some(g) => DropMembersKeepVolumes(cfg, w, g.snapshotIDs, 0, env);
    }
  }

  lemma CreateSnapshotKeepsVolumes(cfg: Config, w: World, name: string, id: string, env: Env)
    ensures VolumesKept(w, CreateSnapshot(cfg, w, name, id, env).0)
  {
  }

  lemma DeleteSnapshotKeepsVolumes(cfg: Config, w: World, id: string, env: Env)
    ensures VolumesKept(w, DeleteSnapshot(cfg, w, id, env).0)
  {
  }

  lemma GetGroupKeepsVolumes(cfg: Config, w: World, id: string, ids: seq<string>)
    ensures VolumesKept(w, GetGroup(cfg, w, id, ids).0)
  {
  }

  lemma SnapshotStepKeepsVolumes(cfg: Config, w: World, e: Event)
    requires ForSnapshots(e.call)
    ensures VolumesKept(w, Step(cfg, w, e))
  {
    hide CreateSnapshot, DeleteSnapshot, GetGroup, CreateGroup, DeleteGroup;
    match e.call {
      case CreateSnapshotCall(name, volID) => CreateSnapshotKeepsVolumes(cfg, w, name, volID, e.env);
      case DeleteSnapshotCall(id) => DeleteSnapshotKeepsVolumes(cfg, w, id, e.env);
      case GetGroupCall(id, ids) => GetGroupKeepsVolumes(cfg, w, id, ids);
      case CreateGroupCall(name, sources) =>
        if |sources| <= |e.env.memberIDs| {
          CreateGroupKeepsVolumes(cfg, w, name, sources, e.env);
        }
      case DeleteGroupCall(id) => DeleteGroupKeepsVolumes(cfg, w, id, e.env);
    }
  }

  // ---------- the quota table ----------

  /** The volume whose quota a call may set or remove. */
  function QuotaID(e: Event): string {
    match e.call
    case CreateVolumeCall(_, _, _, _, _) => e.env.uuid
    case DeleteVolumeCall(id) => id
    case NodePublishCall(id, _, _, _, _, _, _) => id
    case NodeUnpublishCall(id, _) => id
    case NodeExpandCall(id, _, _) => id
    case _ => ""
  }

  function QuotaSize(c: Call): int64 {
    match c
    case CreateVolumeCall(_, _, size, _, _) => size
    case NodeExpandCall(_, _, capRange) => if capRange.Some? then capRange.value else 0
    case _ => EPHEMERAL_SIZE
  }

  /** What can become of the quota table in one call: one addition, removal or change of a cap, or an
      addition that is taken back. */
  ghost predicate QuotaChange(q: Quotas, q': Quotas, dir: string, cap: string, o: Outcomes) {
    || q' == q
    || q' == Adding(q, dir, cap, o)
    || q' == Removing(q, dir, o)
    || q' == Removing(Adding(q, dir, cap, o), dir, o)
    || q' == Resizing(q, dir, cap, o).0
  }

  ghost predicate StepChangesQuota(cfg: Config, w: World, e: Event)
  {
    var dir, cap := PathOf(cfg, QuotaID(e)), SizeText(QuotaSize(e.call) as real);
    QuotaChange(w.quotas, Step(cfg, w, e).quotas, dir, cap, e.env.quota)
  }

  lemma AllocateQuota(cfg: Config, w: World, id: string, name: string, size: int64, access: AccessType,
                      ephemeral: bool, kind: string, env: Env)
    ensures Allocate(cfg, w, id, name, size, access, ephemeral, kind, env).0.quotas ==
      if Stores(cfg, w, size, kind, env) && env.written
      then Adding(w.quotas, PathOf(cfg, id), SizeText(size as real), env.quota)
      else w.quotas
  {
  }

  lemma ReleaseQuota(cfg: Config, w: World, id: string, written: bool, env: Env)
    ensures var v := Find(w.res.volumes, VolumeID, id);
      Release(cfg, w, id, written, env).0.quotas ==
        if v.Some? && Removable(v.value, env) && written
        then Removing(w.quotas, PathOf(cfg, id), env.quota)
        else w.quotas
  {
  }

  lemma QuotaStep(cfg: Config, w: World, e: Event)
    requires !e.call.RestartCall?
    ensures StepChangesQuota(cfg, w, e)
  {
    hide Step, Allocate, Release, Adding, Removing, Resizing, SizeText, PathOf, LoadContent, Recordable;
    var c, env := e.call, e.env;
    if EditsVolume(c) {
      var _ := EditStep(cfg, w, e);
    } else if ForSnapshots(c) {
      SnapshotStepKeepsVolumes(cfg, w, e);
    } else {
      match c {
        case CreateVolumeCall(name, caps, size, kind, _) =>
          CreateStep(cfg, w, e);
          AllocateQuota(cfg, w, env.uuid, name, size, RequestedAccess(caps), false, kind, env);
          ReleaseQuota(cfg, CreatedWorld(cfg, w, c, env).0, env.uuid, env.writtenAgain, env);
        case DeleteVolumeCall(id) =>
          DeleteStep(cfg, w, e);
          ReleaseQuota(cfg, w, id, env.written, env);
        case NodePublishCall(id, _, _, _, _, _, kind) =>
          PublishStep(cfg, w, e);
          AllocateQuota(cfg, w, id, EphemeralName(id), EPHEMERAL_SIZE, MountAccess, true, kind, env);
        case NodeUnpublishCall(id, target) =>
          UnpublishStep(cfg, w, e);
          ReleaseQuota(cfg, w.(mounts := w.mounts - {target}), id, env.written, env);
        case NodeExpandCall(_, _, _) => NodeExpandQuota(cfg, w, e);
      }
    }
  }

  lemma NodeExpandQuota(cfg: Config, w: World, e: Event)
    requires e.call.NodeExpandCall?
    ensures StepChangesQuota(cfg, w, e)
  {
    hide Adding, Removing, Resizing, SizeText;
  }

  // ---------- steps that leave the snapshots alone ----------

  ghost predicate SnapshotsKept(w: World, w': World) {
    w'.res.snapshots == w.res.snapshots && w'.res.groups == w.res.groups
  }

  lemma AllocateKeepsSnapshots(cfg: Config, w: World, id: string, name: string, size: int64, access: AccessType,
                               ephemeral: bool, kind: string, env: Env)
    ensures SnapshotsKept(w, Allocate(cfg, w, id, name, size, access, ephemeral, kind, env).0)
  {
  }

  lemma ReleaseKeepsSnapshots(cfg: Config, w: World, id: string, written: bool, env: Env)
    ensures SnapshotsKept(w, Release(cfg, w, id, written, env).0)
  {
  }

  lemma VolumeStepKeepsSnapshots(cfg: Config, w: World, e: Event)
    requires !ForSnapshots(e.call) && !e.call.RestartCall?
    ensures SnapshotsKept(w, Step(cfg, w, e))
  {
    hide Step, Allocate, Release, Creates, CleansUp, Deletes, Publishes, Unmounts, Edited, LoadContent;
    if EditsVolume(e.call) {
      var _ := EditStep(cfg, w, e);
      return;
    }
    var c, env := e.call, e.env;
    match c {
      case CreateVolumeCall(name, caps, size, kind, _) =>
        CreateStep(cfg, w, e);
        AllocateKeepsSnapshots(cfg, w, env.uuid, name, size, RequestedAccess(caps), false, kind, env);
        ReleaseKeepsSnapshots(cfg, CreatedWorld(cfg, w, c, env).0, env.uuid, env.writtenAgain, env);
      case DeleteVolumeCall(id) =>
        DeleteStep(cfg, w, e);
        ReleaseKeepsSnapshots(cfg, w, id, env.written, env);
      case NodePublishCall(id, _, _, _, _, _, kind) =>
        PublishStep(cfg, w, e);
        AllocateKeepsSnapshots(cfg, w, id, EphemeralName(id), EPHEMERAL_SIZE, MountAccess, true, kind, env);
      case NodeUnpublishCall(id, target) =>
        UnpublishStep(cfg, w, e);
        ReleaseKeepsSnapshots(cfg, w.(mounts := w.mounts - {target}), id, env.written, env);
      case NodeExpandCall(_, _, _) => ExpandQuotaStep(cfg, w, e);
    }
  }
}
