// Repeating a creation call: across any run in between, the same name finds the same volume
// or snapshot again, until it is deleted or overwritten.
module Idempotence {
  import opened Base
  import opened Lists
  import opened State
  import opened ProjectIDs
  import opened Quota
  import opened Driver
  import opened Effects
  import opened Soundness
  import opened Reachable
  import opened Durable

  // ---------- volumes ----------

  /** The name finds the volume with this ID, of at least the given size. */
  ghost predicate Holds(vs: seq<Volume>, name: string, id: string, size: int) {
    var v := Find(vs, VolumeName, name);
    v.Some? && v.value.id == id && v.value.size >= size
  }

  ghost predicate Tracked(w: World, name: string, id: string, size: int) { Holds(w.res.volumes, name, id, size) }

  /** Deletes the volume, replaces it by an ephemeral one of the same ID, or restarts from a file without it. */
  ghost predicate Disturbs(cfg: Config, w: World, e: Event, name: string, id: string, size: int)
  {
    var v := Find(w.res.volumes, VolumeID, id);
    match e.call
    case DeleteVolumeCall(gone) => gone == id && Deletes(cfg, w, e.call) && Removable(v.value, e.env)
    case NodePublishCall(published, _, _, _, _, _, kind) =>
      published == id && NeedsVolume(cfg, w, e.call) && Stores(cfg, w, EPHEMERAL_SIZE, kind, e.env)
    case NodeUnpublishCall(unpublished, _) =>
      && unpublished == id && Unmounts(w, e.call, e.env) && e.env.targetRemoved
      && v.value.ephemeral && Removable(v.value, e.env)
    case RestartCall => !Holds(Restored(w).volumes, name, id, size)
    case _ => false
  }

  ghost predicate UndisturbedRun(cfg: Config, w: World, es: seq<Event>, name: string, id: string, size: int)
    decreases |es|
  {
    || es == []
    || (!Disturbs(cfg, w, es[0], name, id, size)
        && UndisturbedRun(cfg, Step(cfg, w, es[0]), es[1..], name, id, size))
  }

  /** A name and an ID find the same record when IDs are unique. */
  lemma SameRecord(vs: seq<Volume>, name: string, id: string)
    requires Unique(vs, VolumeID)
    requires Find(vs, VolumeName, name).Some? && Find(vs, VolumeName, name).value.id == id
    ensures IndexBy(vs, VolumeID, id) == IndexBy(vs, VolumeName, name)
  {
    IndexIs(vs, VolumeID, id, IndexBy(vs, VolumeName, name));
  }

  lemma PutTracked(vs: seq<Volume>, v: Volume, name: string)
    requires Unique(vs, VolumeID) && Unique(vs, VolumeName) && Find(vs, VolumeName, name).Some?
    requires NameFree(vs, v)
    requires v.id == Find(vs, VolumeName, name).value.id ==> v.name == name
    ensures Find(Put(vs, VolumeID, v), VolumeName, name) ==
      if v.id == Find(vs, VolumeName, name).value.id then Some(v) else Find(vs, VolumeName, name)
  {
    var k := IndexBy(vs, VolumeName, name);
    SameRecord(vs, name, vs[k].id);
    IndexIs(Put(vs, VolumeID, v), VolumeName, name, k);
  }

  /** A volume that is replaced by one of another name is no longer found by its name. */
  lemma PutUntracks(vs: seq<Volume>, v: Volume, name: string)
    requires Unique(vs, VolumeID) && Unique(vs, VolumeName)
    requires Find(vs, VolumeName, name).Some? && Find(vs, VolumeName, name).value.id == v.id && v.name != name
    ensures Find(Put(vs, VolumeID, v), VolumeName, name).None?
  {
    var k := IndexBy(vs, VolumeName, name);
    SameRecord(vs, name, v.id);
    hide IndexBy;
    var t := Put(vs, VolumeID, v);
    forall j | 0 <= j < |t| ensures VolumeName(t[j]) != name {
      assert j != k ==> VolumeName(vs[j]) != VolumeName(vs[k]);
    }
  }

  lemma DropUntracks(vs: seq<Volume>, name: string, id: string)
    requires Unique(vs, VolumeID)
    ensures forall size :: !Holds(Drop(vs, VolumeID, id), name, id, size)
  {
    var t := Drop(vs, VolumeID, id);
    FindDropped(vs, VolumeID, id);
    var v := Find(t, VolumeName, name);
    assert v.Some? ==> VolumeID(v.value) != id;
  }

  lemma SaveTracked(cfg: Config, w: World, v: Volume, written: bool, name: string, id: string, size: int)
    requires SoundWorld(cfg, w) && Tracked(w, name, id, size) && NameFree(w.res.volumes, v)
    requires v.id == id ==> v.name == name && v.size >= size
    ensures Tracked(SaveVolume(w, v, written), name, id, size)
  {
    PutTracked(w.res.volumes, v, name);
  }

  lemma UpdateTracked(cfg: Config, w: World, v: Volume, written: bool, name: string, id: string, size: int)
    requires SoundWorld(cfg, w) && Tracked(w, name, id, size) && Find(w.res.volumes, VolumeID, v.id).Some?
    requires var u := Find(w.res.volumes, VolumeID, v.id).value; u.name == v.name && u.size <= v.size
    ensures Tracked(SaveVolume(w, v, written), name, id, size)
  {
    SameRecord(w.res.volumes, name, id);
    SaveTracked(cfg, w, v, written, name, id, size);
  }

  lemma AllocateTracked(cfg: Config, w: World, newID: string, newName: string, newSize: int64, access: AccessType,
                        ephemeral: bool, kind: string, env: Env, name: string, id: string, size: int)
    requires SoundWorld(cfg, w) && Tracked(w, name, id, size)
    requires newID != id && Find(w.res.volumes, VolumeName, newName).None?
    ensures Tracked(Allocate(cfg, w, newID, newName, newSize, access, ephemeral, kind, env).0, name, id, size)
  {
    match ChooseKind(cfg, w.res.volumes, newSize, kind, env.order) {
      case Refused(_) =>
      case Chosen(k) =>
        SaveTracked(cfg, w, NewVolume(cfg, newID, newName, newSize, access, ephemeral, k), env.written, name, id, size);
    }
  }

  /** A deletion leaves the volume found exactly when it is another one or does not succeed. */
  lemma ReleaseTrackedIff(cfg: Config, w: World, gone: string, written: bool, env: Env, name: string, id: string,
                          size: int)
    requires SoundWorld(cfg, w) && Tracked(w, name, id, size)
    ensures Tracked(Release(cfg, w, gone, written, env).0, name, id, size) <==>
      !(gone == id && Removable(Find(w.res.volumes, VolumeID, id).value, env))
    ensures Find(w.res.volumes, VolumeID, id).Some?
  {
    hide Find, Drop, Sound;
    SoundMeansUnique(cfg, w);
    FoundByBoth(w.res.volumes, name, id);
    if gone == id {
      DropUntracks(w.res.volumes, name, id);
    } else {
      KeptByDrop(w.res.volumes, gone, name, id, size);
    }
  }

  lemma FoundByBoth(vs: seq<Volume>, name: string, id: string)
    requires Unique(vs, VolumeID)
    requires Find(vs, VolumeName, name).Some? && Find(vs, VolumeName, name).value.id == id
    ensures Find(vs, VolumeID, id) == Find(vs, VolumeName, name)
  {
    SameRecord(vs, name, id);
  }

  lemma KeptByDrop(vs: seq<Volume>, gone: string, name: string, id: string, size: int)
    requires Holds(vs, name, id, size) && gone != id
    ensures Holds(Drop(vs, VolumeID, gone), name, id, size)
  {
    FindKeptByDrop(vs, VolumeID, gone, VolumeName, name);
  }

  lemma NewIsOther(w: World, uuid: string, name: string, id: string, size: int)
    requires Tracked(w, name, id, size) && NewID(w.res, uuid)
    ensures uuid != id
  {
    assert VolumeID(Find(w.res.volumes, VolumeName, name).value) != uuid;
  }

  lemma CreateVolumeTracked(cfg: Config, w: World, e: Event, name: string, id: string, size: int)
    requires SoundWorld(cfg, w) && Tracked(w, name, id, size) && Possible(cfg, w, e) && e.call.CreateVolumeCall?
    ensures Tracked(Step(cfg, w, e), name, id, size)
  {
    hide Tracked, SoundWorld, Step, NewID, Allocate, Release, CleansUp;
    var c, env, w1 := e.call, e.env, CreatedWorld(cfg, w, e.call, e.env).0;
    CreateStep(cfg, w, e);
    NewIsOther(w, env.uuid, name, id, size);
    if Creates(cfg, w, c) {
      var access := RequestedAccess(c.caps);
      AllocateTracked(cfg, w, env.uuid, c.name, c.size, access, false, c.kind, env, name, id, size);
      AllocateSound(cfg, w, env.uuid, c.name, c.size, access, false, c.kind, env);
      ReleaseTrackedIff(cfg, w1, env.uuid, env.writtenAgain, env, name, id, size);
    }
  }

  lemma DeleteVolumeTrackedIff(cfg: Config, w: World, e: Event, name: string, id: string, size: int)
    requires SoundWorld(cfg, w) && Tracked(w, name, id, size) && e.call.DeleteVolumeCall?
    ensures Tracked(Step(cfg, w, e), name, id, size) <==> !Disturbs(cfg, w, e, name, id, size)
  {
    hide Tracked, SoundWorld, Step, Release;
    DeleteStep(cfg, w, e);
    ReleaseTrackedIff(cfg, w, e.call.id, e.env.written, e.env, name, id, size);
  }

  lemma EditTracked(cfg: Config, w: World, e: Event, name: string, id: string, size: int)
    requires SoundWorld(cfg, w) && Tracked(w, name, id, size) && EditsVolume(e.call)
    ensures Tracked(Step(cfg, w, e), name, id, size)
  {
    hide Tracked, SoundWorld, Step, SaveVolume;
    var v := EditStep(cfg, w, e);
    if Step(cfg, w, e) != w {
      UpdateTracked(cfg, w, v, e.env.written, name, id, size);
    }
  }

  lemma OtherMounts(cfg: Config, w: World, mounts: set<string>, name: string, id: string, size: int)
    ensures SoundWorld(cfg, w) ==> SoundWorld(cfg, w.(mounts := mounts))
    ensures Tracked(w, name, id, size) <==> Tracked(w.(mounts := mounts), name, id, size)
  {
  }

  /** An ephemeral volume of the same ID takes the place of the tracked one under another name. */
  lemma OverwriteUntracks(cfg: Config, w: World, e: Event, name: string, size: int)
    requires SoundWorld(cfg, w) && e.call.NodePublishCall?
    requires Tracked(w, name, e.call.id, size)
    requires NeedsVolume(cfg, w, e.call) && Stores(cfg, w, EPHEMERAL_SIZE, e.call.kind, e.env)
    ensures !Tracked(Step(cfg, w, e), name, e.call.id, size)
  {
    hide Sound, Step, PublishWorld, Publishes, Put, Stores;
    var v := StoredAndPublished(cfg, w, e);
    SoundMeansNamed(cfg, w);
    PutUntracks(w.res.volumes, v, name);
  }

  lemma SoundMeansNamed(cfg: Config, w: World)
    requires SoundWorld(cfg, w)
    ensures Unique(w.res.volumes, VolumeID) && Unique(w.res.volumes, VolumeName)
  {
  }

  /** What the allocation of a publish leaves tracked. */
  lemma PublishWorldTracked(cfg: Config, w: World, c: Call, env: Env, name: string, id: string, size: int)
    requires SoundWorld(cfg, w) && Tracked(w, name, id, size) && c.NodePublishCall?
    requires !(c.id == id && NeedsVolume(cfg, w, c) && Stores(cfg, w, EPHEMERAL_SIZE, c.kind, env))
    ensures Tracked(PublishWorld(cfg, w, c, env), name, id, size)
  {
    hide Tracked, SoundWorld;
    if NeedsVolume(cfg, w, c) && c.id != id {
      hide Allocate;
      AllocateTracked(cfg, w, c.id, EphemeralName(c.id), EPHEMERAL_SIZE, MountAccess, true, c.kind, env,
        name, id, size);
    }
  }

  lemma NodePublishTrackedIff(cfg: Config, w: World, e: Event, name: string, id: string, size: int)
    requires SoundWorld(cfg, w) && Tracked(w, name, id, size) && e.call.NodePublishCall?
    ensures Tracked(Step(cfg, w, e), name, id, size) <==> !Disturbs(cfg, w, e, name, id, size)
  {
    hide Tracked, SoundWorld, Step, PublishWorld, NeedsVolume, Stores, Recordable, LosesDirectory, SaveVolume, Admitted;
    var c, w1 := e.call, PublishWorld(cfg, w, e.call, e.env);
    if c.id == id && NeedsVolume(cfg, w, c) && Stores(cfg, w, EPHEMERAL_SIZE, c.kind, e.env) {
      OverwriteUntracks(cfg, w, e, name, size);
    } else {
      PublishStep(cfg, w, e);
      PublishWorldTracked(cfg, w, c, e.env, name, id, size);
      PublishWorldSound(cfg, w, c, e.env);
      SameVolumesTracked(w1, RefusedWorld(cfg, w, c, e.env), name, id, size);
      if Publishes(cfg, w, c, e.env) {
        PublishesMeans(cfg, w, c, e.env);
        var v := Find(w1.res.volumes, VolumeID, c.id).value;
        OtherMounts(cfg, w1, MountedWorld(w1, c).mounts, name, id, size);
        UpdateTracked(cfg, MountedWorld(w1, c), PublishedAt(cfg, v, c.target), e.env.writtenAgain, name, id, size);
      }
    }
  }

  lemma UnpublishTrackedIff(cfg: Config, w: World, e: Event, name: string, id: string, size: int)
    requires SoundWorld(cfg, w) && Tracked(w, name, id, size) && e.call.NodeUnpublishCall?
    ensures Tracked(Step(cfg, w, e), name, id, size) <==> !Disturbs(cfg, w, e, name, id, size)
  {
    hide Tracked, SoundWorld, Step, Release, SaveVolume;
    var c, w1 := e.call, w.(mounts := w.mounts - {e.call.target});
    UnpublishStep(cfg, w, e);
    OtherMounts(cfg, w, w1.mounts, name, id, size);
    if Unmounts(w, c, e.env) {
      var v := Find(w.res.volumes, VolumeID, c.id).value;
      ReleaseTrackedIff(cfg, w1, c.id, e.env.written, e.env, name, id, size);
      UpdateTracked(cfg, w1, UnpublishedAt(v, c.target), e.env.written, name, id, size);
    }
  }

  lemma SameVolumesTracked(w: World, w': World, name: string, id: string, size: int)
    requires Tracked(w, name, id, size) && w'.res.volumes == w.res.volumes
    ensures Tracked(w', name, id, size)
  {
  }

  lemma RestartTrackedIff(cfg: Config, w: World, e: Event, name: string, id: string, size: int)
    requires e.call.RestartCall?
    ensures Tracked(Step(cfg, w, e), name, id, size) <==> !Disturbs(cfg, w, e, name, id, size)
  {
    hide Started, Holds;
  }

  /** An up-to-date state file has every volume. */
  lemma CleanRestartTracks(cfg: Config, w: World, e: Event, name: string, id: string, size: int)
    requires e.call.RestartCall? && Mirrored(w) && w.clean && Tracked(w, name, id, size)
    ensures !Disturbs(cfg, w, e, name, id, size)
  {
  }

  /** A step keeps the name finding the volume exactly unless it disturbs it. */
  lemma StepTrackedIff(cfg: Config, w: World, e: Event, name: string, id: string, size: int)
    requires SoundWorld(cfg, w) && Tracked(w, name, id, size) && Possible(cfg, w, e)
    ensures Tracked(Step(cfg, w, e), name, id, size) <==> !Disturbs(cfg, w, e, name, id, size)
  {
    hide Tracked, SoundWorld, Step, NewID, HasFree;
    if EditsVolume(e.call) {
      EditTracked(cfg, w, e, name, id, size);
    } else if ForSnapshots(e.call) {
      SnapshotStepKeepsVolumes(cfg, w, e);
      SameVolumesTracked(w, Step(cfg, w, e), name, id, size);
    } else {
      match e.call {
        case CreateVolumeCall(_, _, _, _, _) => CreateVolumeTracked(cfg, w, e, name, id, size);
        case DeleteVolumeCall(_) => DeleteVolumeTrackedIff(cfg, w, e, name, id, size);
        case NodePublishCall(_, _, _, _, _, _, _) => NodePublishTrackedIff(cfg, w, e, name, id, size);
        case NodeUnpublishCall(_, _) => UnpublishTrackedIff(cfg, w, e, name, id, size);
        case NodeExpandCall(_, _, _) =>
          ExpandQuotaStep(cfg, w, e);
          SameVolumesTracked(w, Step(cfg, w, e), name, id, size);
        case RestartCall => RestartTrackedIff(cfg, w, e, name, id, size);
      }
    }
  }

  lemma {:induction false} RunTracked(cfg: Config, w: World, es: seq<Event>, name: string, id: string, size: int)
    requires SoundWorld(cfg, w) && Tracked(w, name, id, size)
    requires PossibleRun(cfg, w, es) && UndisturbedRun(cfg, w, es, name, id, size)
    ensures Tracked(Run(cfg, w, es), name, id, size) && SoundWorld(cfg, Run(cfg, w, es))
    decreases |es|
  {
    hide Tracked, SoundWorld, Disturbs;
    if es != [] {
      StepTrackedIff(cfg, w, es[0], name, id, size);
      StepSound(cfg, w, es[0]);
      RunTracked(cfg, Step(cfg, w, es[0]), es[1..], name, id, size);
    }
  }

  /** No call disturbs the volume, and restarts are settled. */
  ghost predicate QuietRun(cfg: Config, w: World, es: seq<Event>, name: string, id: string, size: int)
    decreases |es|
  {
    || es == []
    || (Settled(w, es[0]) && (!es[0].call.RestartCall? ==> !Disturbs(cfg, w, es[0], name, id, size))
        && QuietRun(cfg, Step(cfg, w, es[0]), es[1..], name, id, size))
  }

  /** A restart that no failed state write precedes, since the last good one, disturbs nothing. */
  lemma {:induction false} QuietIsUndisturbed(cfg: Config, w: World, es: seq<Event>, name: string, id: string,
                                              size: int)
    requires SoundWorld(cfg, w) && Mirrored(w) && Tracked(w, name, id, size) && PossibleRun(cfg, w, es)
    requires QuietRun(cfg, w, es, name, id, size)
    ensures UndisturbedRun(cfg, w, es, name, id, size)
    decreases |es|
  {
    hide Tracked, SoundWorld, Mirrored, Disturbs, Possible;
    if es != [] {
      if es[0].call.RestartCall? {
        CleanRestartTracks(cfg, w, es[0], name, id, size);
      }
      StepTrackedIff(cfg, w, es[0], name, id, size);
      StepSound(cfg, w, es[0]);
      StepMirrored(cfg, w, es[0]);
      QuietIsUndisturbed(cfg, Step(cfg, w, es[0]), es[1..], name, id, size);
    }
  }

  /** A successful creation makes its name find the volume it answered with. */
  lemma CreationTracked(cfg: Config, w: World, e: Event)
    requires SoundWorld(cfg, w) && Possible(cfg, w, e) && e.call.CreateVolumeCall? && StepReply(cfg, w, e).1.VolumeIs?
    ensures var r := StepReply(cfg, w, e).1; Tracked(Step(cfg, w, e), e.call.name, r.id, r.capacity)
  {
    hide Sound;
    var c, env := e.call, e.env;
    if Find(w.res.volumes, VolumeName, c.name).None? {
      match ChooseKind(cfg, w.res.volumes, c.size, c.kind, env.order) {
        case Refused(_) =>
        case Chosen(k) =>
          AppendFound(w.res.volumes, NewVolume(cfg, env.uuid, c.name, c.size, RequestedAccess(c.caps), false, k));
      }
    }
  }

  lemma AppendFound(vs: seq<Volume>, v: Volume)
    requires Absent(vs, VolumeID, v.id) && Find(vs, VolumeName, v.name).None?
    ensures Find(Put(vs, VolumeID, v), VolumeName, v.name) == Some(v)
  {
    assert Put(vs, VolumeID, v) == vs + [v];
    IndexIs(vs + [v], VolumeName, v.name, |vs|);
  }

  predicate ValidRequest(cfg: Config, name: string, caps: seq<Capability>) {
    !cfg.ephemeral && name != "" && caps != [] && !(Block in caps && Mount in caps)
  }

  /** After a successful CreateVolume, in whatever order other calls, failures and restarts follow,
      asking again under that name with no source or a snapshot source and at most the stored size
      answers with the same ID and changes nothing; with a volume source it is rejected, even when the
      request is the very one that created the volume. */
  lemma RepeatedCreateVolume(cfg: Config, w: World, e: Event, es: seq<Event>, caps: seq<Capability>,
                             size: int64, kind: string, source: Source, env: Env)
    requires SoundWorld(cfg, w) && Possible(cfg, w, e) && e.call.CreateVolumeCall? && StepReply(cfg, w, e).1.VolumeIs?
    requires PossibleRun(cfg, Step(cfg, w, e), es)
    requires var first := StepReply(cfg, w, e).1;
      UndisturbedRun(cfg, Step(cfg, w, e), es, e.call.name, first.id, first.capacity)
    requires ValidRequest(cfg, e.call.name, caps)
    ensures var first, later := StepReply(cfg, w, e).1, Run(cfg, Step(cfg, w, e), es);
      var v := Find(later.res.volumes, VolumeName, e.call.name);
      && v.Some? && v.value.id == first.id && v.value.size >= first.capacity
      && (size <= v.value.size && (source.NoSource? || source.FromSnapshot?) ==>
            CreateVolume(cfg, later, e.call.name, caps, size, kind, source, env)
              == (later, VolumeIs(first.id, v.value.size)))
      && (source.FromVolume? && source.id != "" ==>
            CreateVolume(cfg, later, e.call.name, caps, size, kind, source, env) == (later, Failed(AlreadyExists)))
  {
    var first, w1 := StepReply(cfg, w, e).1, Step(cfg, w, e);
    CreationTracked(cfg, w, e);
    StepSound(cfg, w, e);
    RunTracked(cfg, w1, es, e.call.name, first.id, first.capacity);
    NoParents(cfg, Run(cfg, w1, es), e.call.name);
  }

  lemma NoParents(cfg: Config, w: World, name: string)
    requires SoundWorld(cfg, w) && Find(w.res.volumes, VolumeName, name).Some?
    ensures var v := Find(w.res.volumes, VolumeName, name).value; v.parentVolID == "" && v.parentSnapID == ""
  {
    assert VolumeSound(cfg, w.res.volumes[IndexBy(w.res.volumes, VolumeName, name)]);
  }

  // ---------- snapshots ----------

  ghost predicate HoldsSnapshot(ss: seq<Snapshot>, name: string, id: string, volID: string) {
    var s := Find(ss, SnapshotName, name);
    s.Some? && s.value.id == id && s.value.volID == volID
  }

  ghost predicate TrackedSnapshot(w: World, name: string, id: string, volID: string) {
    HoldsSnapshot(w.res.snapshots, name, id, volID)
  }

  /** Deleting these members comes as far as the one with this ID: no write before it fails. */
  ghost predicate ReachesMember(w: World, ids: seq<string>, i: nat, env: Env, id: string) {
    exists k :: i <= k < |ids| && ids[k] == id
      && forall j :: i <= j < k ==> Find(w.res.snapshots, SnapshotID, ids[j]).None? || Outcome(env.writes, j)
  }

  ghost predicate DeletesSnapshot(cfg: Config, w: World, e: Event, name: string, id: string, volID: string) {
    match e.call
    case DeleteSnapshotCall(gone) => gone == id && id != "" && !cfg.ephemeral
    case DeleteGroupCall(group) =>
      var g := Find(w.res.groups, GroupID, group);
      group != "" && g.Some? && ReachesMember(w, g.value.snapshotIDs, 0, e.env, id)
    case RestartCall => !HoldsSnapshot(Restored(w).snapshots, name, id, volID)
    case _ => false
  }

  ghost predicate SnapshotKeptByRun(cfg: Config, w: World, es: seq<Event>, name: string, id: string, volID: string)
    decreases |es|
  {
    || es == []
    || (!DeletesSnapshot(cfg, w, es[0], name, id, volID)
        && SnapshotKeptByRun(cfg, Step(cfg, w, es[0]), es[1..], name, id, volID))
  }

  /** Appending keeps the first match of a name. */
  lemma {:induction false} FoundInPrefix(a: seq<Snapshot>, b: seq<Snapshot>, name: string)
    requires Find(a, SnapshotName, name).Some?
    ensures Find(a + b, SnapshotName, name) == Find(a, SnapshotName, name)
  {
    IndexIs(a + b, SnapshotName, name, IndexBy(a, SnapshotName, name));
  }

  lemma RemoveTrackedIff(cfg: Config, w: World, gone: string, removed: bool, written: bool, name: string, id: string,
                         volID: string)
    requires SoundWorld(cfg, w) && TrackedSnapshot(w, name, id, volID)
    ensures TrackedSnapshot(RemoveSnapshot(cfg, w, gone, removed, written), name, id, volID) <==> gone != id
    ensures Find(w.res.snapshots, SnapshotID, id).Some?
  {
    hide Sound, IndexBy;
    SoundMeansUnique(cfg, w);
    var ss := w.res.snapshots;
    IndexIs(ss, SnapshotID, id, IndexBy(ss, SnapshotName, name));
    if gone == id {
      FindDropped(ss, SnapshotID, id);
      GoneStaysGone(RemoveSnapshot(cfg, w, gone, removed, written), name, id, volID);
    } else {
      FindKeptByDrop(ss, SnapshotID, gone, SnapshotName, name);
    }
  }

  lemma GoneStaysGone(w: World, name: string, id: string, volID: string)
    requires Absent(w.res.snapshots, SnapshotID, id)
    ensures !TrackedSnapshot(w, name, id, volID)
  {
    var s := Find(w.res.snapshots, SnapshotName, name);
    assert s.Some? ==> SnapshotID(s.value) != id;
  }

  lemma {:induction false} DropMembersGone(cfg: Config, w: World, ids: seq<string>, i: nat, env: Env, id: string)
    requires Absent(w.res.snapshots, SnapshotID, id) && i <= |ids|
    ensures Absent(DropMembers(cfg, w, ids, i, env).0.res.snapshots, SnapshotID, id)
    decreases |ids| - i
  {
    hide Absent;
    if i < |ids| {
      var w' := DropAt(cfg, w, ids, i, env);
      RemovedStaysAbsent(w.res.snapshots, ids[i], id);
      DropMembersGone(cfg, w', ids, i + 1, env, id);
    }
  }

  lemma RemovedStaysAbsent(ss: seq<Snapshot>, gone: string, id: string)
    requires Absent(ss, SnapshotID, id)
    ensures Absent(Drop(ss, SnapshotID, gone), SnapshotID, id)
  {
    hide IndexBy;
  }

  lemma RemoveAbsent(cfg: Config, w: World, id: string, removed: bool, written: bool)
    requires SoundWorld(cfg, w)
    ensures Absent(RemoveSnapshot(cfg, w, id, removed, written).res.snapshots, SnapshotID, id)
  {
    FindDropped(w.res.snapshots, SnapshotID, id);
  }

  /** Removing the first member does not change how far the rest is reached. */
  lemma ReachesNext(cfg: Config, w: World, ids: seq<string>, i: nat, env: Env, id: string)
    requires SoundWorld(cfg, w) && i < |ids| && NoRepeats(ids) && ids[i] != id
    ensures var w' := DropAt(cfg, w, ids, i, env);
      ReachesMember(w, ids, i, env, id) <==>
        && (Find(w.res.snapshots, SnapshotID, ids[i]).None? || Outcome(env.writes, i))
        && ReachesMember(w', ids, i + 1, env, id)
  {
    var w' := DropAt(cfg, w, ids, i, env);
    forall j | i < j < |ids|
      ensures Find(w'.res.snapshots, SnapshotID, ids[j]) == Find(w.res.snapshots, SnapshotID, ids[j])
    {
      FindOther(w.res.snapshots, SnapshotID, ids[i], ids[j]);
    }
    hide Find, Drop, RemoveSnapshot, Sound;
    if ReachesMember(w, ids, i, env, id) {
      var k :| i <= k < |ids| && ids[k] == id
        && forall j :: i <= j < k ==> Find(w.res.snapshots, SnapshotID, ids[j]).None? || Outcome(env.writes, j);
      assert k > i;
    }
  }

  lemma {:induction false} DropMembersTrackedIff(cfg: Config, w: World, ids: seq<string>, i: nat, env: Env,
                                                 name: string, id: string, volID: string)
    requires SoundWorld(cfg, w) && TrackedSnapshot(w, name, id, volID) && i <= |ids| && NoRepeats(ids)
    ensures TrackedSnapshot(DropMembers(cfg, w, ids, i, env).0, name, id, volID) <==> !ReachesMember(w, ids, i, env, id)
    decreases |ids| - i
  {
    hide TrackedSnapshot, SoundWorld, RemoveSnapshot, ReachesMember, NoRepeats;
    if i == |ids| {
      NothingReached(w, ids, env, id);
    } else {
      var removed, written := Outcome(env.removals, i), Outcome(env.writes, i);
      var w' := DropAt(cfg, w, ids, i, env);
      RemoveTrackedIff(cfg, w, ids[i], removed, written, name, id, volID);
      RemoveSnapshotSound(cfg, w, ids[i], removed, written);
      if ids[i] == id {
        RemoveAbsent(cfg, w, id, removed, written);
        DropMembersGone(cfg, w', ids, i + 1, env, id);
        GoneStaysGone(DropMembers(cfg, w, ids, i, env).0, name, id, volID);
        ReachesAt(w, ids, i, env);
      } else {
        DropMembersTrackedIff(cfg, w', ids, i + 1, env, name, id, volID);
        ReachesNext(cfg, w, ids, i, env, id);
      }
    }
  }

  lemma NothingReached(w: World, ids: seq<string>, env: Env, id: string)
    ensures !ReachesMember(w, ids, |ids|, env, id)
  {
  }

  lemma ReachesAt(w: World, ids: seq<string>, i: nat, env: Env)
    requires i < |ids|
    ensures ReachesMember(w, ids, i, env, ids[i])
  {
  }

  lemma CreateSnapshotTracked(cfg: Config, w: World, e: Event, name: string, id: string, volID: string)
    requires TrackedSnapshot(w, name, id, volID) && Possible(cfg, w, e) && e.call.CreateSnapshotCall?
    ensures TrackedSnapshot(Step(cfg, w, e), name, id, volID)
  {
    var c, env := e.call, e.env;
    match Find(w.res.volumes, VolumeID, c.volID) {
      case None =>
      case Some(v) =>
        var s := Snapshot(c.name, env.uuid, c.volID, SnapshotPathOf(cfg, env.uuid), env.now, v.size, true, "");
        PutThenDrop(w.res.snapshots, SnapshotID, s);
        FoundInPrefix(w.res.snapshots, [s], name);
    }
  }

  lemma CreateGroupTracked(cfg: Config, w: World, e: Event, name: string, id: string, volID: string)
    requires SoundWorld(cfg, w) && TrackedSnapshot(w, name, id, volID) && Possible(cfg, w, e) && e.call.CreateGroupCall?
    ensures TrackedSnapshot(Step(cfg, w, e), name, id, volID)
  {
    hide SoundWorld;
    var c := e.call;
    if IndexBy(w.res.groups, GroupName, c.name) == |w.res.groups| && c.name != "" && c.sources != [] {
      var k := CreateGroupOutcome(cfg, w, c.name, c.sources, e.env);
      FoundInPrefix(w.res.snapshots, NewMembers(cfg, w.res.volumes, c.name, c.sources, 0, k, e.env), name);
    }
  }

  lemma FoundGroupSound(cfg: Config, w: World, id: string)
    requires SoundWorld(cfg, w) && Find(w.res.groups, GroupID, id).Some?
    ensures NoRepeats(Find(w.res.groups, GroupID, id).value.snapshotIDs)
  {
    assert GroupSound(w.res.snapshots, w.res.groups[IndexBy(w.res.groups, GroupID, id)]);
  }

  lemma DeleteGroupTrackedIff(cfg: Config, w: World, e: Event, name: string, id: string, volID: string)
    requires SoundWorld(cfg, w) && TrackedSnapshot(w, name, id, volID) && e.call.DeleteGroupCall?
    ensures TrackedSnapshot(Step(cfg, w, e), name, id, volID) <==> !DeletesSnapshot(cfg, w, e, name, id, volID)
  {
    hide SoundWorld, HoldsSnapshot, ReachesMember;
    match Find(w.res.groups, GroupID, e.call.id) {
      case None =>
      case Some(g) =>
        FoundGroupSound(cfg, w, e.call.id);
        DropMembersTrackedIff(cfg, w, g.snapshotIDs, 0, e.env, name, id, volID);
    }
  }

  lemma DeleteSnapshotTrackedIff(cfg: Config, w: World, e: Event, name: string, id: string, volID: string)
    requires SoundWorld(cfg, w) && TrackedSnapshot(w, name, id, volID)
    requires e.call.DeleteSnapshotCall?
    ensures TrackedSnapshot(Step(cfg, w, e), name, id, volID) <==> !DeletesSnapshot(cfg, w, e, name, id, volID)
  {
    hide SoundWorld, TrackedSnapshot, RemoveSnapshot;
    RemoveTrackedIff(cfg, w, e.call.id, Outcome(e.env.removals, 0), e.env.written, name, id, volID);
  }

  lemma SameSnapshotsTracked(w: World, w': World, name: string, id: string, volID: string)
    requires TrackedSnapshot(w, name, id, volID) && w'.res.snapshots == w.res.snapshots
    ensures TrackedSnapshot(w', name, id, volID)
  {
  }

  lemma RestartSnapshotTrackedIff(cfg: Config, w: World, e: Event, name: string, id: string, volID: string)
    requires e.call.RestartCall?
    ensures TrackedSnapshot(Step(cfg, w, e), name, id, volID) <==> !DeletesSnapshot(cfg, w, e, name, id, volID)
  {
    hide Started, HoldsSnapshot;
  }

  lemma SnapshotStepTrackedIff(cfg: Config, w: World, e: Event, name: string, id: string, volID: string)
    requires SoundWorld(cfg, w) && TrackedSnapshot(w, name, id, volID) && Possible(cfg, w, e) && ForSnapshots(e.call)
    ensures TrackedSnapshot(Step(cfg, w, e), name, id, volID) <==> !DeletesSnapshot(cfg, w, e, name, id, volID)
  {
    hide TrackedSnapshot, SoundWorld;
    match e.call {
      case CreateSnapshotCall(_, _) => CreateSnapshotTracked(cfg, w, e, name, id, volID);
      case DeleteSnapshotCall(_) => DeleteSnapshotTrackedIff(cfg, w, e, name, id, volID);
      case CreateGroupCall(_, _) => CreateGroupTracked(cfg, w, e, name, id, volID);
      case DeleteGroupCall(_) => DeleteGroupTrackedIff(cfg, w, e, name, id, volID);
      case GetGroupCall(_, _) => SameSnapshotsTracked(w, Step(cfg, w, e), name, id, volID);
    }
  }

  /** A step keeps the name finding the snapshot exactly unless it deletes it, alone or with its group. */
  lemma StepSnapshotTrackedIff(cfg: Config, w: World, e: Event, name: string, id: string, volID: string)
    requires SoundWorld(cfg, w) && TrackedSnapshot(w, name, id, volID) && Possible(cfg, w, e)
    ensures TrackedSnapshot(Step(cfg, w, e), name, id, volID) <==> !DeletesSnapshot(cfg, w, e, name, id, volID)
  {
    hide TrackedSnapshot, SoundWorld, Step, NewID, HasFree;
    if ForSnapshots(e.call) {
      SnapshotStepTrackedIff(cfg, w, e, name, id, volID);
    } else if e.call.RestartCall? {
      RestartSnapshotTrackedIff(cfg, w, e, name, id, volID);
    } else {
      VolumeStepKeepsSnapshots(cfg, w, e);
      SameSnapshotsTracked(w, Step(cfg, w, e), name, id, volID);
    }
  }

  lemma {:induction false} RunSnapshotTracked(cfg: Config, w: World, es: seq<Event>, name: string, id: string,
                                              volID: string)
    requires SoundWorld(cfg, w) && TrackedSnapshot(w, name, id, volID)
    requires PossibleRun(cfg, w, es) && SnapshotKeptByRun(cfg, w, es, name, id, volID)
    ensures TrackedSnapshot(Run(cfg, w, es), name, id, volID)
    decreases |es|
  {
    hide TrackedSnapshot, SoundWorld, DeletesSnapshot;
    if es != [] {
      StepSnapshotTrackedIff(cfg, w, es[0], name, id, volID);
      StepSound(cfg, w, es[0]);
      RunSnapshotTracked(cfg, Step(cfg, w, es[0]), es[1..], name, id, volID);
    }
  }

  /** An up-to-date state file has every snapshot. */
  lemma CleanRestartTracksSnapshot(cfg: Config, w: World, e: Event, name: string, id: string, volID: string)
    requires e.call.RestartCall? && Mirrored(w) && w.clean && TrackedSnapshot(w, name, id, volID)
    ensures !DeletesSnapshot(cfg, w, e, name, id, volID)
  {
  }

  /** No call deletes the snapshot, and restarts are settled. */
  ghost predicate QuietSnapshotRun(cfg: Config, w: World, es: seq<Event>, name: string, id: string, volID: string)
    decreases |es|
  {
    || es == []
    || (Settled(w, es[0]) && (!es[0].call.RestartCall? ==> !DeletesSnapshot(cfg, w, es[0], name, id, volID))
        && QuietSnapshotRun(cfg, Step(cfg, w, es[0]), es[1..], name, id, volID))
  }

  lemma {:induction false} QuietKeepsSnapshot(cfg: Config, w: World, es: seq<Event>, name: string, id: string,
                                              volID: string)
    requires SoundWorld(cfg, w) && Mirrored(w) && TrackedSnapshot(w, name, id, volID) && PossibleRun(cfg, w, es)
    requires QuietSnapshotRun(cfg, w, es, name, id, volID)
    ensures SnapshotKeptByRun(cfg, w, es, name, id, volID)
    decreases |es|
  {
    hide TrackedSnapshot, SoundWorld, Mirrored, DeletesSnapshot, Possible;
    if es != [] {
      if es[0].call.RestartCall? {
        CleanRestartTracksSnapshot(cfg, w, es[0], name, id, volID);
      }
      StepSnapshotTrackedIff(cfg, w, es[0], name, id, volID);
      StepSound(cfg, w, es[0]);
      StepMirrored(cfg, w, es[0]);
      QuietKeepsSnapshot(cfg, Step(cfg, w, es[0]), es[1..], name, id, volID);
    }
  }

  lemma SnapshotCreationTracked(cfg: Config, w: World, e: Event)
    requires Possible(cfg, w, e) && e.call.CreateSnapshotCall? && StepReply(cfg, w, e).1.SnapshotIs?
    ensures TrackedSnapshot(Step(cfg, w, e), e.call.name, StepReply(cfg, w, e).1.snapshot.id, e.call.volID)
  {
    var c, env := e.call, e.env;
    if Find(w.res.snapshots, SnapshotName, c.name).None? {
      var v := Find(w.res.volumes, VolumeID, c.volID).value;
      var s := Snapshot(c.name, env.uuid, c.volID, SnapshotPathOf(cfg, env.uuid), env.now, v.size, true, "");
      PutThenDrop(w.res.snapshots, SnapshotID, s);
      IndexIs(w.res.snapshots + [s], SnapshotName, c.name, |w.res.snapshots|);
    }
  }

  /** After a successful CreateSnapshot, any run that does not delete the snapshot leaves the name and
      source answered with the same ID and another source rejected, even where group snapshots have
      added the same name again. */
  lemma RepeatedCreateSnapshot(cfg: Config, w: World, e: Event, es: seq<Event>, volID: string, env: Env)
    requires SoundWorld(cfg, w) && Possible(cfg, w, e) && e.call.CreateSnapshotCall?
    requires StepReply(cfg, w, e).1.SnapshotIs? && PossibleRun(cfg, Step(cfg, w, e), es)
    requires SnapshotKeptByRun(cfg, Step(cfg, w, e), es, e.call.name, StepReply(cfg, w, e).1.snapshot.id, e.call.volID)
    requires volID != ""
    ensures var first, later := StepReply(cfg, w, e).1, Run(cfg, Step(cfg, w, e), es);
      var (after, reply) := CreateSnapshot(cfg, later, e.call.name, volID, env);
      && after == later
      && (volID == e.call.volID ==>
            reply.SnapshotIs? && reply.snapshot.id == first.snapshot.id && reply.snapshot.volID == volID)
      && (volID != e.call.volID ==> reply == Failed(AlreadyExists))
  {
    var first, w1 := StepReply(cfg, w, e).1, Step(cfg, w, e);
    SnapshotCreationTracked(cfg, w, e);
    StepSound(cfg, w, e);
    RunSnapshotTracked(cfg, w1, es, e.call.name, first.snapshot.id, e.call.volID);
  }
}
