// The state file mirrors memory: after a successful write a restart finds the same volumes
// and snapshots, and the same groups up to the order inside their ID lists.
module Durable {
  import opened Base
  import opened Lists
  import opened State
  import opened Quota
  import opened Driver
  import opened Effects
  import opened Soundness
  import opened Reachable

  function Restored(w: World): Resources { if w.file.Some? then w.file.value else EMPTY }

  ghost predicate SameContents(r: Resources, s: Resources) {
    && r.volumes == s.volumes
    && r.snapshots == s.snapshots
    && |r.groups| == |s.groups|
    && forall i :: 0 <= i < |r.groups| ==> SameUpToOrder(r.groups[i], s.groups[i])
  }

  /** While no write has failed since the last good one, the file holds what memory holds. */
  ghost predicate Mirrored(w: World) { w.clean ==> SameContents(Restored(w), w.res) }

  ghost predicate AllWritten(env: Env) {
    env.written && env.writtenAgain && forall i :: 0 <= i < |env.writes| ==> env.writes[i]
  }

  /** A restart comes only when no state write has failed since the last good one. */
  predicate Settled(w: World, e: Event) { e.call.RestartCall? ==> w.clean }

  // ---------- volumes ----------

  /** One write: the file mirrors memory whatever was before, and is clean if the write succeeds. */
  lemma SavedMirrors(w: World, v: Volume, written: bool)
    ensures Mirrored(SaveVolume(w, v, written)) && SaveVolume(w, v, written).clean == written
  {
  }

  lemma AllocateMirrored(cfg: Config, w: World, id: string, name: string, size: int64, access: AccessType,
                         ephemeral: bool, kind: string, env: Env)
    ensures var w' := Allocate(cfg, w, id, name, size, access, ephemeral, kind, env).0;
      && (Mirrored(w) ==> Mirrored(w'))
      && (w.clean && env.written ==> w'.clean)
  {
  }

  lemma ReleaseMirrored(cfg: Config, w: World, id: string, written: bool, env: Env)
    ensures var w' := Release(cfg, w, id, written, env).0;
      && (Mirrored(w) ==> Mirrored(w'))
      && (w.clean && written ==> w'.clean)
  {
  }

  lemma SameStateMirrored(w: World, w': World)
    requires w'.res == w.res && w'.file == w.file && w'.clean == w.clean
    ensures Mirrored(w) <==> Mirrored(w')
  {
  }

  /** What a step keeps: the mirror, and cleanness when its writes succeed. */
  ghost predicate MirrorKept(w: World, w': World, env: Env) {
    && (Mirrored(w) ==> Mirrored(w'))
    && (w.clean && AllWritten(env) ==> w'.clean)
  }

  lemma CreateVolumeMirrored(cfg: Config, w: World, e: Event)
    requires e.call.CreateVolumeCall?
    ensures MirrorKept(w, Step(cfg, w, e), e.env)
  {
    hide Mirrored, Step, Allocate, Release, Creates, CleansUp;
    var c, env := e.call, e.env;
    CreateStep(cfg, w, e);
    AllocateMirrored(cfg, w, env.uuid, c.name, c.size, RequestedAccess(c.caps), false, c.kind, env);
    ReleaseMirrored(cfg, CreatedWorld(cfg, w, c, env).0, env.uuid, env.writtenAgain, env);
  }

  lemma NodePublishMirrored(cfg: Config, w: World, e: Event)
    requires e.call.NodePublishCall?
    ensures MirrorKept(w, Step(cfg, w, e), e.env)
  {
    hide Mirrored, Step, Allocate, NeedsVolume, Publishes, LosesDirectory, SaveVolume;
    var c, w1 := e.call, PublishWorld(cfg, w, e.call, e.env);
    PublishStep(cfg, w, e);
    SameStateMirrored(w1, RefusedWorld(cfg, w, c, e.env));
    AllocateMirrored(cfg, w, c.id, EphemeralName(c.id), EPHEMERAL_SIZE, MountAccess, true, c.kind, e.env);
    if Publishes(cfg, w, c, e.env) {
      assert c.cap.Some? && Find(w1.res.volumes, VolumeID, c.id).Some? by { PublishesMeans(cfg, w, c, e.env); }
      var v := Find(w1.res.volumes, VolumeID, c.id).value;
      SavedMirrors(MountedWorld(w1, c), PublishedAt(cfg, v, c.target), e.env.writtenAgain);
    }
  }

  lemma NodeUnpublishMirrored(cfg: Config, w: World, e: Event)
    requires e.call.NodeUnpublishCall?
    ensures MirrorKept(w, Step(cfg, w, e), e.env)
  {
    hide Mirrored, Step, Release, SaveVolume;
    var c, w1 := e.call, w.(mounts := w.mounts - {e.call.target});
    UnpublishStep(cfg, w, e);
    SameStateMirrored(w, w1);
    if Unmounts(w, c, e.env) {
      ReleaseMirrored(cfg, w1, c.id, e.env.written, e.env);
      SavedMirrors(w1, UnpublishedAt(Find(w.res.volumes, VolumeID, c.id).value, c.target), e.env.written);
    }
  }

  lemma EditMirrored(cfg: Config, w: World, e: Event)
    requires EditsVolume(e.call)
    ensures MirrorKept(w, Step(cfg, w, e), e.env)
  {
    hide Mirrored, Step, SaveVolume;
    var v := EditStep(cfg, w, e);
    SavedMirrors(w, v, e.env.written);
  }

  lemma OtherVolumeStepMirrored(cfg: Config, w: World, e: Event)
    requires (e.call.DeleteVolumeCall? || e.call.NodeExpandCall? || e.call.RestartCall?)
    ensures MirrorKept(w, Step(cfg, w, e), e.env)
  {
    hide Release, Started, Resizing;
    if e.call.DeleteVolumeCall? {
      DeleteStep(cfg, w, e);
      ReleaseMirrored(cfg, w, e.call.id, e.env.written, e.env);
    }
  }

  // ---------- snapshots and groups ----------

  /** Sorting a stored list leaves the file behind only in the order of that list. */
  lemma SortMirrored(w: World, i: nat, ids: seq<string>)
    requires i < |w.res.groups|
    ensures Mirrored(w) ==> Mirrored(SortSources(w, i, ids)) && Mirrored(SortMembers(w, i, ids))
  {
    SortedLists(w, i, ids);
  }

  lemma {:induction false} AddMembersMirrored(cfg: Config, w: World, name: string, sources: seq<string>, i: nat,
                                              env: Env)
    requires i <= |sources| <= |env.memberIDs|
    ensures MirrorKept(w, AddMembers(cfg, w, name, sources, i, env).0, env)
    decreases |sources| - i
  {
    if i < |sources| && AddMember(cfg, w, name, sources[i], i, env).1.None? {
      AddMembersMirrored(cfg, AddMember(cfg, w, name, sources[i], i, env).0, name, sources, i + 1, env);
    }
  }

  lemma {:induction false} DropMembersMirrored(cfg: Config, w: World, ids: seq<string>, i: nat, env: Env)
    requires i <= |ids|
    ensures MirrorKept(w, DropMembers(cfg, w, ids, i, env).0, env)
    ensures AllWritten(env) ==> DropMembers(cfg, w, ids, i, env).1
    decreases |ids| - i
  {
    if i < |ids| {
      DropMembersMirrored(cfg, DropAt(cfg, w, ids, i, env), ids, i + 1, env);
    }
  }

  lemma CreateGroupMirrored(cfg: Config, w: World, name: string, sources: seq<string>, env: Env)
    requires |sources| <= |env.memberIDs|
    ensures MirrorKept(w, CreateGroup(cfg, w, name, sources, env).0, env)
  {
    var i := IndexBy(w.res.groups, GroupName, name);
    if i < |w.res.groups| {
      SortMirrored(w, i, sources);
    } else {
      AddMembersMirrored(cfg, w, name, sources, 0, env);
    }
  }

  lemma DeleteGroupMirrored(cfg: Config, w: World, id: string, env: Env)
    ensures MirrorKept(w, DeleteGroup(cfg, w, id, env).0, env)
  {
    match Find(w.res.groups, GroupID, id) {
      case None =>
      case Some(g) => DropMembersMirrored(cfg, w, g.snapshotIDs, 0, env);
    }
  }

  lemma GetGroupMirrored(cfg: Config, w: World, id: string, ids: seq<string>, env: Env)
    ensures MirrorKept(w, GetGroup(cfg, w, id, ids).0, env)
  {
    var i := IndexBy(w.res.groups, GroupID, id);
    if i < |w.res.groups| {
      SortMirrored(w, i, ids);
    }
  }

  lemma SnapshotMirrored(cfg: Config, w: World, e: Event)
    requires (e.call.CreateSnapshotCall? || e.call.DeleteSnapshotCall?)
    ensures MirrorKept(w, Step(cfg, w, e), e.env)
  {
    hide Put, Drop, IndexBy;
  }

  // ---------- every step and every run ----------

  lemma StepMirrorKept(cfg: Config, w: World, e: Event)
    ensures MirrorKept(w, Step(cfg, w, e), e.env)
  {
    hide Mirrored, CreateGroup, DeleteGroup, GetGroup;
    if EditsVolume(e.call) {
      EditMirrored(cfg, w, e);
      return;
    }
    match e.call {
      case CreateVolumeCall(_, _, _, _, _) => CreateVolumeMirrored(cfg, w, e);
      case NodePublishCall(_, _, _, _, _, _, _) => NodePublishMirrored(cfg, w, e);
      case NodeUnpublishCall(_, _) => NodeUnpublishMirrored(cfg, w, e);
      case DeleteVolumeCall(_) => OtherVolumeStepMirrored(cfg, w, e);
      case NodeExpandCall(_, _, _) => OtherVolumeStepMirrored(cfg, w, e);
      case RestartCall => OtherVolumeStepMirrored(cfg, w, e);
      case CreateSnapshotCall(_, _) => SnapshotMirrored(cfg, w, e);
      case DeleteSnapshotCall(_) => SnapshotMirrored(cfg, w, e);
      case CreateGroupCall(name, sources) =>
        if |sources| <= |e.env.memberIDs| {
          CreateGroupMirrored(cfg, w, name, sources, e.env);
        }
      case DeleteGroupCall(id) => DeleteGroupMirrored(cfg, w, id, e.env);
      case GetGroupCall(id, ids) => GetGroupMirrored(cfg, w, id, ids, e.env);
    }
  }

  lemma StepMirrored(cfg: Config, w: World, e: Event)
    requires Mirrored(w)
    ensures Mirrored(Step(cfg, w, e))
    ensures w.clean && AllWritten(e.env) ==> Step(cfg, w, e).clean
  {
    hide Mirrored, Step, AllWritten;
    StepMirrorKept(cfg, w, e);
  }

  lemma {:induction false} RunMirrored(cfg: Config, w: World, es: seq<Event>)
    requires Mirrored(w)
    ensures Mirrored(Run(cfg, w, es))
    decreases |es|
  {
    if es != [] {
      StepMirrored(cfg, w, es[0]);
      RunMirrored(cfg, Step(cfg, w, es[0]), es[1..]);
    }
  }

  /** At every point of every run at which no write has failed since the last one that succeeded,
      restarting brings back the same state up to the order inside the groups' ID lists. */
  lemma RestartRestores(cfg: Config, w: World, es: seq<Event>, env: Env)
    requires Initial(w) && Run(cfg, w, es).clean
    ensures SameContents(Restart(Run(cfg, w, es), env).res, Run(cfg, w, es).res)
  {
    RunMirrored(cfg, w, es);
  }

  // ---------- runs whose writes succeed ----------

  lemma {:induction false} RunClean(cfg: Config, w: World, es: seq<Event>)
    requires Mirrored(w) && w.clean && forall i :: 0 <= i < |es| ==> AllWritten(es[i].env)
    ensures Run(cfg, w, es).clean
    decreases |es|
  {
    if es != [] {
      StepMirrored(cfg, w, es[0]);
      RunClean(cfg, Step(cfg, w, es[0]), es[1..]);
    }
  }

  /** In a run whose state writes all succeed, a restart loses nothing at any point. */
  lemma RestartLosesNothing(cfg: Config, w: World, es: seq<Event>, env: Env)
    requires Initial(w) && forall i :: 0 <= i < |es| ==> AllWritten(es[i].env)
    ensures SameContents(Restart(Run(cfg, w, es), env).res, Run(cfg, w, es).res)
  {
    RunClean(cfg, w, es);
    RestartRestores(cfg, w, es, env);
  }
}
