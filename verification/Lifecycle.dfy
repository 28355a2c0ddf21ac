// The CSI volume lifecycle: a published volume is staged (unless it is ephemeral), and with
// attach and lifecycle checks enabled a staged volume is attached.
module Lifecycle {
  import opened Base
  import opened Lists
  import opened State
  import opened Quota
  import opened Driver
  import opened Effects
  import opened Soundness
  import opened Reachable

  ghost predicate Nested(cfg: Config, v: Volume) {
    && (v.published != [] && !v.ephemeral ==> v.staged != [])
    && (cfg.enableAttach && cfg.checkVolumeLifecycle && v.staged != [] ==> v.attached)
  }

  ghost predicate AllNested(cfg: Config, vs: seq<Volume>) {
    forall i :: 0 <= i < |vs| ==> Nested(cfg, vs[i])
  }

  ghost predicate NestedWorld(cfg: Config, w: World) {
    AllNested(cfg, w.res.volumes) && (w.file.Some? ==> AllNested(cfg, w.file.value.volumes))
  }

  const PREFIX := "ephemeral-"

  /** Ephemeral volumes carry their generated name, and no other name starts like it. */
  ghost predicate WellNamed(v: Volume) {
    if v.ephemeral then v.name == EphemeralName(v.id) else !(PREFIX <= v.name)
  }

  ghost predicate AllWellNamed(vs: seq<Volume>) {
    forall i :: 0 <= i < |vs| ==> WellNamed(vs[i])
  }

  ghost predicate WellNamedWorld(w: World) {
    AllWellNamed(w.res.volumes) && (w.file.Some? ==> AllWellNamed(w.file.value.volumes))
  }

  // ---------- list updates ----------

  lemma PutNestedIff(cfg: Config, vs: seq<Volume>, v: Volume)
    requires AllNested(cfg, vs)
    ensures AllNested(cfg, Put(vs, VolumeID, v)) <==> Nested(cfg, v)
  {
    var t := Put(vs, VolumeID, v);
    assert t[if IndexBy(vs, VolumeID, v.id) < |vs| then IndexBy(vs, VolumeID, v.id) else |vs|] == v;
  }

  lemma SaveNestedIff(cfg: Config, w: World, v: Volume, written: bool)
    requires NestedWorld(cfg, w)
    ensures NestedWorld(cfg, SaveVolume(w, v, written)) <==> Nested(cfg, v)
  {
    PutNestedIff(cfg, w.res.volumes, v);
  }

  lemma SaveWellNamed(w: World, v: Volume, written: bool)
    requires WellNamedWorld(w) && WellNamed(v)
    ensures WellNamedWorld(SaveVolume(w, v, written))
  {
  }

  lemma RemoveKeeps(cfg: Config, w: World, id: string, written: bool)
    ensures NestedWorld(cfg, w) ==> NestedWorld(cfg, RemoveVolume(w, id, written))
    ensures WellNamedWorld(w) ==> WellNamedWorld(RemoveVolume(w, id, written))
  {
    var t := Drop(w.res.volumes, VolumeID, id);
    forall j | 0 <= j < |t|
      ensures AllNested(cfg, w.res.volumes) ==> Nested(cfg, t[j])
      ensures AllWellNamed(w.res.volumes) ==> WellNamed(t[j])
    {
      var i := DropMember(w.res.volumes, VolumeID, id, j);
    }
  }

  // ---------- the steps ----------

  /** An ephemeral publish that finds its generated name taken does not create a volume, and
      then publishes whatever volume has the ID: here one that is neither ephemeral nor staged. */
  ghost predicate PublishesUnstaged(cfg: Config, w: World, e: Event) {
    && e.call.NodePublishCall?
    && e.call.cap.Some? && e.call.id != "" && e.call.target != ""
    && WantsEphemeral(cfg, e.call.context)
    && Find(w.res.volumes, VolumeName, EphemeralName(e.call.id)).Some?
    && var v := Find(w.res.volumes, VolumeID, e.call.id);
    && v.Some? && !v.value.ephemeral && v.value.staged == []
    && Recordable(cfg, w, v.value, e.call, true, e.env)
  }

  lemma AllocateNested(cfg: Config, w: World, id: string, name: string, size: int64, access: AccessType,
                       ephemeral: bool, kind: string, env: Env)
    requires NestedWorld(cfg, w)
    ensures NestedWorld(cfg, Allocate(cfg, w, id, name, size, access, ephemeral, kind, env).0)
  {
    match ChooseKind(cfg, w.res.volumes, size, kind, env.order) {
      case Refused(_) =>
      case Chosen(k) => SaveNestedIff(cfg, w, NewVolume(cfg, id, name, size, access, ephemeral, k), env.written);
    }
  }

  lemma AllocateWellNamed(cfg: Config, w: World, id: string, name: string, size: int64, access: AccessType,
                          ephemeral: bool, kind: string, env: Env)
    requires WellNamedWorld(w)
    requires if ephemeral then name == EphemeralName(id) else !(PREFIX <= name)
    ensures WellNamedWorld(Allocate(cfg, w, id, name, size, access, ephemeral, kind, env).0)
  {
    match ChooseKind(cfg, w.res.volumes, size, kind, env.order) {
      case Refused(_) =>
      case Chosen(k) => SaveWellNamed(w, NewVolume(cfg, id, name, size, access, ephemeral, k), env.written);
    }
  }

  lemma ReleaseKeeps(cfg: Config, w: World, id: string, written: bool, env: Env)
    ensures NestedWorld(cfg, w) ==> NestedWorld(cfg, Release(cfg, w, id, written, env).0)
    ensures WellNamedWorld(w) ==> WellNamedWorld(Release(cfg, w, id, written, env).0)
  {
    RemoveKeeps(cfg, w, id, written);
  }

  lemma CreateVolumeKeeps(cfg: Config, w: World, e: Event)
    requires e.call.CreateVolumeCall?
    ensures NestedWorld(cfg, w) ==> NestedWorld(cfg, Step(cfg, w, e))
    ensures WellNamedWorld(w) && !(PREFIX <= e.call.name) ==> WellNamedWorld(Step(cfg, w, e))
  {
    hide NestedWorld, WellNamedWorld, Step, Allocate, Release, Creates, CleansUp;
    var c, env := e.call, e.env;
    var access := RequestedAccess(c.caps);
    CreateStep(cfg, w, e);
    if NestedWorld(cfg, w) {
      AllocateNested(cfg, w, env.uuid, c.name, c.size, access, false, c.kind, env);
    }
    if WellNamedWorld(w) && !(PREFIX <= c.name) {
      AllocateWellNamed(cfg, w, env.uuid, c.name, c.size, access, false, c.kind, env);
    }
    ReleaseKeeps(cfg, CreatedWorld(cfg, w, c, env).0, env.uuid, env.writtenAgain, env);
  }

  lemma DeleteVolumeKeeps(cfg: Config, w: World, e: Event)
    requires e.call.DeleteVolumeCall?
    ensures NestedWorld(cfg, w) ==> NestedWorld(cfg, Step(cfg, w, e))
    ensures WellNamedWorld(w) ==> WellNamedWorld(Step(cfg, w, e))
  {
    hide NestedWorld, WellNamedWorld, Step, Release, Deletes;
    DeleteStep(cfg, w, e);
    ReleaseKeeps(cfg, w, e.call.id, e.env.written, e.env);
  }

  /** Changing a stored volume without touching its name or kind of life. */
  lemma UpdateKeeps(cfg: Config, w: World, v: Volume, written: bool)
    requires Find(w.res.volumes, VolumeID, v.id).Some?
    requires var u := Find(w.res.volumes, VolumeID, v.id).value; u.name == v.name && u.ephemeral == v.ephemeral
    ensures NestedWorld(cfg, w) && Nested(cfg, v) ==> NestedWorld(cfg, SaveVolume(w, v, written))
    ensures WellNamedWorld(w) ==> WellNamedWorld(SaveVolume(w, v, written))
  {
    if NestedWorld(cfg, w) {
      SaveNestedIff(cfg, w, v, written);
    }
    if WellNamedWorld(w) {
      assert WellNamed(v);
      SaveWellNamed(w, v, written);
    }
  }

  lemma FoundNested(cfg: Config, w: World, id: string)
    requires NestedWorld(cfg, w) && Find(w.res.volumes, VolumeID, id).Some?
    ensures Nested(cfg, Find(w.res.volumes, VolumeID, id).value)
  {
  }

  /** The checks of attach, detach, stage and unstage are what keeps the lifecycle nested. */
  lemma EditKeeps(cfg: Config, w: World, e: Event)
    requires EditsVolume(e.call)
    ensures NestedWorld(cfg, w) ==> NestedWorld(cfg, Step(cfg, w, e))
    ensures WellNamedWorld(w) ==> WellNamedWorld(Step(cfg, w, e))
  {
    hide NestedWorld, WellNamedWorld, Step, SaveVolume;
    var v := EditStep(cfg, w, e);
    if Step(cfg, w, e) != w {
      if NestedWorld(cfg, w) {
        FoundNested(cfg, w, v.id);
      }
      UpdateKeeps(cfg, w, v, e.env.written);
    }
  }

  /** What an allocation leaves under the ID: the new volume, or nothing new at all. */
  lemma AllocatedEphemeral(cfg: Config, w: World, id: string, kind: string, env: Env)
    ensures var (w1, failure) := Allocate(cfg, w, id, EphemeralName(id), EPHEMERAL_SIZE, MountAccess, true, kind, env);
      failure.None? ==>
        var v := Find(w1.res.volumes, VolumeID, id);
        v.Some? && v.value.ephemeral
  {
    match ChooseKind(cfg, w.res.volumes, EPHEMERAL_SIZE, kind, env.order) {
      case Refused(_) =>
      case Chosen(k) =>
        var v := NewVolume(cfg, id, EphemeralName(id), EPHEMERAL_SIZE, MountAccess, true, k);
        FindPut(w.res.volumes, VolumeID, v, id);
    }
  }

  lemma PublishWorldNested(cfg: Config, w: World, c: Call, env: Env)
    requires NestedWorld(cfg, w) && c.NodePublishCall?
    ensures NestedWorld(cfg, PublishWorld(cfg, w, c, env))
  {
    hide NestedWorld, Allocate;
    if NeedsVolume(cfg, w, c) {
      AllocateNested(cfg, w, c.id, EphemeralName(c.id), EPHEMERAL_SIZE, MountAccess, true, c.kind, env);
    }
  }

  lemma PublishedNestedIff(cfg: Config, w: World, v: Volume, target: string, written: bool)
    requires NestedWorld(cfg, w) && Find(w.res.volumes, VolumeID, v.id) == Some(v)
    ensures NestedWorld(cfg, SaveVolume(w, PublishedAt(cfg, v, target), written)) <==> v.ephemeral || v.staged != []
  {
    FoundNested(cfg, w, v.id);
    SaveNestedIff(cfg, w, PublishedAt(cfg, v, target), written);
  }

  /** Only a volume that need not be staged is published unstaged. */
  lemma RecordsUnstagedIff(cfg: Config, w: World, e: Event)
    requires e.call.NodePublishCall?
    ensures PublishesUnstaged(cfg, w, e) <==>
      && Publishes(cfg, w, e.call, e.env)
      && var v := Find(PublishWorld(cfg, w, e.call, e.env).res.volumes, VolumeID, e.call.id).value;
         !v.ephemeral && v.staged == []
  {
    hide Allocate, MountReply;
    AllocatedEphemeral(cfg, w, e.call.id, e.call.kind, e.env);
  }

  lemma NodePublishNestedIff(cfg: Config, w: World, e: Event)
    requires NestedWorld(cfg, w) && e.call.NodePublishCall?
    ensures NestedWorld(cfg, Step(cfg, w, e)) <==> !PublishesUnstaged(cfg, w, e)
  {
    var c, w1 := e.call, PublishWorld(cfg, w, e.call, e.env);
    hide NestedWorld, Step, PublishWorld, PublishesUnstaged, Recordable, LosesDirectory, SaveVolume;
    PublishStep(cfg, w, e);
    QuotaOnly(cfg, w1, RefusedWorld(cfg, w, c, e.env));
    PublishWorldNested(cfg, w, c, e.env);
    RecordsUnstagedIff(cfg, w, e);
    if Publishes(cfg, w, c, e.env) {
      var v := Find(w1.res.volumes, VolumeID, c.id).value;
      QuotaOnly(cfg, w1, MountedWorld(w1, c));
      PublishedNestedIff(cfg, MountedWorld(w1, c), v, c.target, e.env.writtenAgain);
    }
  }

  lemma NodePublishWellNamed(cfg: Config, w: World, e: Event)
    requires WellNamedWorld(w) && e.call.NodePublishCall?
    ensures WellNamedWorld(Step(cfg, w, e))
  {
    hide WellNamedWorld, NestedWorld, Step, Allocate, Recordable, LosesDirectory, SaveVolume;
    var c, w1 := e.call, PublishWorld(cfg, w, e.call, e.env);
    PublishStep(cfg, w, e);
    QuotaOnly(cfg, w1, RefusedWorld(cfg, w, c, e.env));
    if NeedsVolume(cfg, w, c) {
      AllocateWellNamed(cfg, w, c.id, EphemeralName(c.id), EPHEMERAL_SIZE, MountAccess, true, c.kind, e.env);
    }
    if Publishes(cfg, w, c, e.env) {
      var v := Find(w1.res.volumes, VolumeID, c.id).value;
      QuotaOnly(cfg, w1, MountedWorld(w1, c));
      UpdateKeeps(cfg, MountedWorld(w1, c), PublishedAt(cfg, v, c.target), e.env.writtenAgain);
    }
  }

  lemma NodeUnpublishKeeps(cfg: Config, w: World, e: Event)
    requires e.call.NodeUnpublishCall?
    ensures NestedWorld(cfg, w) ==> NestedWorld(cfg, Step(cfg, w, e))
    ensures WellNamedWorld(w) ==> WellNamedWorld(Step(cfg, w, e))
  {
    hide NestedWorld, WellNamedWorld, Step, Release, SaveVolume;
    var c, w1 := e.call, w.(mounts := w.mounts - {e.call.target});
    UnpublishStep(cfg, w, e);
    QuotaOnly(cfg, w, w1);
    if Unmounts(w, c, e.env) {
      var v := Find(w.res.volumes, VolumeID, c.id).value;
      if NestedWorld(cfg, w) {
        FoundNested(cfg, w, c.id);
      }
      ReleaseKeeps(cfg, w1, c.id, e.env.written, e.env);
      UpdateKeeps(cfg, w1, UnpublishedAt(v, c.target), e.env.written);
    }
  }

  lemma QuotaOnly(cfg: Config, w: World, w': World)
    requires w'.res == w.res && w'.file == w.file
    ensures NestedWorld(cfg, w) <==> NestedWorld(cfg, w')
    ensures WellNamedWorld(w) <==> WellNamedWorld(w')
  {
  }

  lemma RestartKeeps(cfg: Config, w: World, e: Event)
    requires e.call.RestartCall?
    ensures NestedWorld(cfg, w) ==> NestedWorld(cfg, Step(cfg, w, e))
    ensures WellNamedWorld(w) ==> WellNamedWorld(Step(cfg, w, e))
  {
    hide Started;
  }

  lemma SnapshotStepKeeps(cfg: Config, w: World, e: Event)
    requires ForSnapshots(e.call)
    ensures NestedWorld(cfg, w) ==> NestedWorld(cfg, Step(cfg, w, e))
    ensures WellNamedWorld(w) ==> WellNamedWorld(Step(cfg, w, e))
  {
    hide Step;
    SnapshotStepKeepsVolumes(cfg, w, e);
  }

  // ---------- every step and every run ----------

  /** Every call but a publish keeps the nesting, and keeps names apart where it got one that is. */
  lemma OtherStepKeeps(cfg: Config, w: World, e: Event)
    requires !e.call.NodePublishCall?
    ensures NestedWorld(cfg, w) ==> NestedWorld(cfg, Step(cfg, w, e))
    ensures WellNamedWorld(w) && AvoidsPrefix(e) ==> WellNamedWorld(Step(cfg, w, e))
  {
    hide NestedWorld, WellNamedWorld, StepReply;
    if EditsVolume(e.call) {
      EditKeeps(cfg, w, e);
    } else if ForSnapshots(e.call) {
      SnapshotStepKeeps(cfg, w, e);
    } else {
      match e.call {
        case CreateVolumeCall(_, _, _, _, _) => CreateVolumeKeeps(cfg, w, e);
        case DeleteVolumeCall(_) => DeleteVolumeKeeps(cfg, w, e);
        case NodeUnpublishCall(_, _) => NodeUnpublishKeeps(cfg, w, e);
        case NodeExpandCall(_, _, _) =>
          ExpandQuotaStep(cfg, w, e);
          QuotaOnly(cfg, w, Step(cfg, w, e));
        case RestartCall => RestartKeeps(cfg, w, e);
      }
    }
  }

  /** A step leaves the lifecycle nested exactly unless it is an ephemeral publish of an
      unstaged, non-ephemeral volume whose generated name someone else has. */
  lemma StepNestedIff(cfg: Config, w: World, e: Event)
    requires NestedWorld(cfg, w)
    ensures NestedWorld(cfg, Step(cfg, w, e)) <==> !PublishesUnstaged(cfg, w, e)
  {
    hide NestedWorld, WellNamedWorld, Step;
    if e.call.NodePublishCall? {
      NodePublishNestedIff(cfg, w, e);
    } else {
      OtherStepKeeps(cfg, w, e);
    }
  }

  ghost predicate AvoidsPrefix(e: Event) { e.call.CreateVolumeCall? ==> !(PREFIX <= e.call.name) }

  lemma StepWellNamed(cfg: Config, w: World, e: Event)
    requires WellNamedWorld(w) && AvoidsPrefix(e)
    ensures WellNamedWorld(Step(cfg, w, e))
  {
    hide NestedWorld, WellNamedWorld, Step;
    if e.call.NodePublishCall? {
      NodePublishWellNamed(cfg, w, e);
    } else {
      OtherStepKeeps(cfg, w, e);
    }
  }

  /** Where names are kept apart, a volume found under the generated name of an ID has that ID. */
  lemma NoNameStolen(cfg: Config, w: World, e: Event)
    requires SoundWorld(cfg, w) && WellNamedWorld(w)
    ensures !PublishesUnstaged(cfg, w, e)
  {
    if PublishesUnstaged(cfg, w, e) {
      var id := e.call.id;
      var i := IndexBy(w.res.volumes, VolumeName, EphemeralName(id));
      var u := w.res.volumes[i];
      assert WellNamed(u);
      assert PREFIX <= u.name;
      assert u.name[|PREFIX|..] == u.id && EphemeralName(id)[|PREFIX|..] == id;
      IndexIs(w.res.volumes, VolumeID, id, i);
    }
  }

  lemma {:induction false} RunNested(cfg: Config, w: World, es: seq<Event>)
    requires SoundWorld(cfg, w) && NestedWorld(cfg, w) && WellNamedWorld(w) && PossibleRun(cfg, w, es)
    requires forall i :: 0 <= i < |es| ==> AvoidsPrefix(es[i])
    ensures NestedWorld(cfg, Run(cfg, w, es))
    decreases |es|
  {
    hide SoundWorld, NestedWorld, WellNamedWorld;
    if es != [] {
      StepSound(cfg, w, es[0]);
      NoNameStolen(cfg, w, es[0]);
      StepNestedIff(cfg, w, es[0]);
      StepWellNamed(cfg, w, es[0]);
      RunNested(cfg, Step(cfg, w, es[0]), es[1..]);
    }
  }

  /** From a fresh start, with CreateVolume names that avoid the generated prefix: in every reachable
      state a volume has at most one staging path, a published non-ephemeral volume is staged, and
      with attach and lifecycle checks a staged volume is attached. */
  lemma ReachableLifecycle(cfg: Config, w: World, es: seq<Event>)
    requires Initial(w) && PossibleRun(cfg, w, es)
    requires forall i :: 0 <= i < |es| ==> AvoidsPrefix(es[i])
    ensures forall v :: v in Run(cfg, w, es).res.volumes ==>
      && |v.staged| <= 1
      && (v.published != [] && !v.ephemeral ==> v.staged != [])
      && (cfg.enableAttach && cfg.checkVolumeLifecycle && v.staged != [] ==> v.attached)
  {
    EmptySound(cfg);
    RunSound(cfg, w, es);
    RunNested(cfg, w, es);
    StoredVolumes(cfg, Run(cfg, w, es));
  }

  lemma StoredVolumes(cfg: Config, w: World)
    requires SoundWorld(cfg, w) && NestedWorld(cfg, w)
    ensures forall v :: v in w.res.volumes ==> VolumeSound(cfg, v) && Nested(cfg, v)
  {
    hide VolumeSound, Nested;
  }
}
