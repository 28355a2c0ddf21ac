// What a failed mount of an ephemeral volume leaves: a stored volume without a directory that no publish
// can bring back and no unpublish takes away. It keeps its capacity and its quota until it is deleted.
module Stranded {
  import opened Base
  import opened Lists
  import opened State
  import opened ProjectIDs
  import opened Quota
  import opened Sizes
  import opened Driver
  import opened Effects
  import opened Soundness
  import opened Reachable
  import opened Durable
  import opened Capacity
  import opened NodeFiles
  import opened Backing
  import opened QuotaTable

  /** An unpublished ephemeral volume under its generated name. */
  predicate Idle(v: Volume, kind: string, size: int) {
    && v.name == EphemeralName(v.id) && v.ephemeral && v.access == MountAccess && v.published == []
    && v.kind == kind && v.size >= size
  }

  ghost predicate StoredIdle(vs: seq<Volume>, id: string, kind: string, size: int) {
    var v := Find(vs, VolumeID, id);
    v.Some? && Idle(v.value, kind, size)
  }

  /** It is stored, and its directory is gone. */
  ghost predicate IsStranded(cfg: Config, w: World, id: string, kind: string, size: int) {
    StoredIdle(w.res.volumes, id, kind, size) && PathOf(cfg, id) !in w.files
  }

  ghost predicate HasQuota(cfg: Config, w: World, id: string) { PathOf(cfg, id) in TableOf(w.quotas) }

  /** A failed mount strands the volume, unless it is published elsewhere or has another name. */
  lemma FailedMountStrands(cfg: Config, w: World, e: Event)
    requires e.call.NodePublishCall? && LosesDirectory(cfg, w, e.call, e.env)
    ensures var v := Find(PublishWorld(cfg, w, e.call, e.env).res.volumes, VolumeID, e.call.id).value;
      v.published == [] && v.name == EphemeralName(v.id) ==>
        IsStranded(cfg, Step(cfg, w, e), e.call.id, v.kind, v.size)
  {
    hide Step, PublishWorld, Recordable, Admitted, PublishRefusal, MountReply, PathOf;
    PublishStep(cfg, w, e);
    RecordsNotLoses(cfg, w, e.call, e.env);
  }

  // ---------- what does not end it ----------

  /** The volume is deleted, recorded as published without being mounted, or not recalled by a restart. */
  ghost predicate Ends(cfg: Config, w: World, e: Event, id: string, kind: string, size: int) {
    match e.call
    case DeleteVolumeCall(gone) =>
      gone == id && Deletes(cfg, w, e.call) && Releases(w.res.volumes, id, e.env)
    case NodePublishCall(published, _, _, cap, _, _, _) =>
      published == id && cap == Some(NoAccessType) && Publishes(cfg, w, e.call, e.env)
    case RestartCall => !StoredIdle(Restored(w).volumes, id, kind, size)
    case _ => false
  }

  /** Still stranded, and still with its quota if it had one. */
  ghost predicate Stays(cfg: Config, w: World, w': World, id: string, kind: string, size: int) {
    IsStranded(cfg, w', id, kind, size) && (HasQuota(cfg, w, id) ==> HasQuota(cfg, w', id))
  }

  lemma OtherAllocated(cfg: Config, w: World, other: string, name: string, newSize: int64, access: AccessType,
                       ephemeral: bool, newKind: string, env: Env, id: string, kind: string, size: int)
    requires IsStranded(cfg, w, id, kind, size) && other != id
    ensures Stays(cfg, w, Allocate(cfg, w, other, name, newSize, access, ephemeral, newKind, env).0, id, kind, size)
  {
    hide Adding, PathOf, SizeText, Put, Idle, IndexBy;
    PathTellsID(cfg, other, id);
    AddingKeys(w.quotas, PathOf(cfg, other), SizeText(newSize as real), env.quota);
    match ChooseKind(cfg, w.res.volumes, newSize, newKind, env.order) {
      case Refused(_) =>
      case Chosen(k) =>
        FindPut(w.res.volumes, VolumeID, NewVolume(cfg, other, name, newSize, access, ephemeral, k), id);
    }
  }

  lemma OtherReleased(cfg: Config, w: World, other: string, written: bool, env: Env, id: string, kind: string,
                      size: int)
    requires IsStranded(cfg, w, id, kind, size) && other != id
    ensures Stays(cfg, w, Release(cfg, w, other, written, env).0, id, kind, size)
  {
    hide Removing, PathOf, Drop, Idle, IndexBy;
    PathTellsID(cfg, other, id);
    RemovingKeys(w.quotas, PathOf(cfg, other), env.quota);
    FindOther(w.res.volumes, VolumeID, other, id);
  }

  lemma Saves(cfg: Config, w: World, v: Volume, written: bool, id: string, kind: string, size: int)
    requires IsStranded(cfg, w, id, kind, size) && (v.id == id ==> Idle(v, kind, size))
    ensures Stays(cfg, w, SaveVolume(w, v, written), id, kind, size)
  {
    hide PathOf, Put, Idle, IndexBy;
    FindPut(w.res.volumes, VolumeID, v, id);
  }

  lemma SameRecords(cfg: Config, w: World, w': World, id: string, kind: string, size: int)
    requires IsStranded(cfg, w, id, kind, size)
    requires w'.res.volumes == w.res.volumes && w'.quotas == w.quotas
    requires PathOf(cfg, id) !in w'.files || w'.files <= w.files
    ensures Stays(cfg, w, w', id, kind, size)
  {
  }

  lemma Then(cfg: Config, w: World, w1: World, w2: World, id: string, kind: string, size: int)
    requires Stays(cfg, w, w1, id, kind, size) && Stays(cfg, w1, w2, id, kind, size)
    ensures Stays(cfg, w, w2, id, kind, size)
  {
  }

  lemma StaysMeans(cfg: Config, w: World, w': World, id: string, kind: string, size: int)
    requires Stays(cfg, w, w', id, kind, size)
    ensures IsStranded(cfg, w', id, kind, size)
  {
  }

  lemma CreateStays(cfg: Config, w: World, e: Event, id: string, kind: string, size: int)
    requires IsStranded(cfg, w, id, kind, size) && NewID(w.res, e.env.uuid) && e.call.CreateVolumeCall?
    ensures Stays(cfg, w, Step(cfg, w, e), id, kind, size)
  {
    hide IsStranded, HasQuota, Step, Allocate, Release, Creates, CleansUp;
    var c, env, w1 := e.call, e.env, CreatedWorld(cfg, w, e.call, e.env).0;
    CreateStep(cfg, w, e);
    NewIsAnother(cfg, w, env.uuid, id, kind, size);
    OtherAllocated(cfg, w, env.uuid, c.name, c.size, RequestedAccess(c.caps), false, c.kind, env, id, kind, size);
    OtherReleased(cfg, w1, env.uuid, env.writtenAgain, env, id, kind, size);
  }

  lemma NewIsAnother(cfg: Config, w: World, uuid: string, id: string, kind: string, size: int)
    requires IsStranded(cfg, w, id, kind, size) && NewID(w.res, uuid)
    ensures uuid != id && ArchiveOf(uuid) != id
  {
    assert VolumeID(Find(w.res.volumes, VolumeID, id).value) == id;
  }

  lemma DeleteStaysIff(cfg: Config, w: World, e: Event, id: string, kind: string, size: int)
    requires SoundWorld(cfg, w) && IsStranded(cfg, w, id, kind, size) && e.call.DeleteVolumeCall?
    ensures !Ends(cfg, w, e, id, kind, size) ==> Stays(cfg, w, Step(cfg, w, e), id, kind, size)
    ensures Ends(cfg, w, e, id, kind, size) ==> !IsStranded(cfg, Step(cfg, w, e), id, kind, size)
  {
    hide SoundWorld, Step, Deletes, Idle, PathOf, Drop;
    DeleteStep(cfg, w, e);
    if e.call.id != id {
      OtherReleased(cfg, w, e.call.id, e.env.written, e.env, id, kind, size);
    } else {
      SoundMeansUnique(cfg, w);
      FindDropped(w.res.volumes, VolumeID, id);
    }
  }

  lemma EditStays(cfg: Config, w: World, e: Event, id: string, kind: string, size: int)
    requires IsStranded(cfg, w, id, kind, size) && EditsVolume(e.call)
    ensures Stays(cfg, w, Step(cfg, w, e), id, kind, size)
  {
    hide Step, SaveVolume, PathOf, IndexBy;
    var v := EditStep(cfg, w, e);
    if Step(cfg, w, e) != w {
      Saves(cfg, w, v, e.env.written, id, kind, size);
    }
  }

  /** The generated name is taken and nothing is there to be mounted. */
  lemma OwnPublish(cfg: Config, w: World, c: Call, env: Env, id: string, kind: string, size: int)
    requires IsStranded(cfg, w, id, kind, size) && c.NodePublishCall? && c.id == id
    ensures !NeedsVolume(cfg, w, c) && PublishWorld(cfg, w, c, env) == w
    ensures Publishes(cfg, w, c, env) ==> c.cap == Some(NoAccessType)
  {
    hide Allocate, PublishRefusal, PathOf;
    var i := IndexBy(w.res.volumes, VolumeID, id);
    assert VolumeName(w.res.volumes[i]) == EphemeralName(id);
  }

  lemma PublishStaysIff(cfg: Config, w: World, e: Event, id: string, kind: string, size: int)
    requires IsStranded(cfg, w, id, kind, size) && e.call.NodePublishCall?
    ensures !Ends(cfg, w, e, id, kind, size) ==> Stays(cfg, w, Step(cfg, w, e), id, kind, size)
    ensures Ends(cfg, w, e, id, kind, size) ==> !IsStranded(cfg, Step(cfg, w, e), id, kind, size)
  {
    hide IsStranded, HasQuota, Step, Allocate, Publishes, LosesDirectory, SaveVolume, PathOf, NeedsVolume;
    var c, env, w1 := e.call, e.env, PublishWorld(cfg, w, e.call, e.env);
    PublishStep(cfg, w, e);
    if c.id == id {
      OwnPublish(cfg, w, c, env, id, kind, size);
      OwnRefused(cfg, w, c, env, id, kind, size);
      if Publishes(cfg, w, c, env) {
        PublishesMeans(cfg, w, c, env);
        var v := PublishedAt(cfg, Find(w.res.volumes, VolumeID, id).value, c.target);
        RecordedEnds(cfg, MountedWorld(w, c), v, env.writtenAgain, id, kind, size);
      }
    } else {
      OtherAllocated(cfg, w, c.id, EphemeralName(c.id), EPHEMERAL_SIZE, MountAccess, true, c.kind, env, id, kind, size);
      SameRecords(cfg, w, w, id, kind, size);
      StaysMeans(cfg, w, w1, id, kind, size);
      SameRecords(cfg, w1, RefusedWorld(cfg, w, c, env), id, kind, size);
      Then(cfg, w, w1, RefusedWorld(cfg, w, c, env), id, kind, size);
      if Publishes(cfg, w, c, env) {
        PublishesMeans(cfg, w, c, env);
        var v := PublishedAt(cfg, Find(w1.res.volumes, VolumeID, c.id).value, c.target);
        SameRecords(cfg, w1, MountedWorld(w1, c), id, kind, size);
        StaysMeans(cfg, w1, MountedWorld(w1, c), id, kind, size);
        Saves(cfg, MountedWorld(w1, c), v, env.writtenAgain, id, kind, size);
        Then(cfg, w, w1, MountedWorld(w1, c), id, kind, size);
        Then(cfg, w, MountedWorld(w1, c), SaveVolume(MountedWorld(w1, c), v, env.writtenAgain), id, kind, size);
      }
    }
  }

  lemma OwnRefused(cfg: Config, w: World, c: Call, env: Env, id: string, kind: string, size: int)
    requires IsStranded(cfg, w, id, kind, size) && c.NodePublishCall? && c.id == id
    ensures Stays(cfg, w, RefusedWorld(cfg, w, c, env), id, kind, size)
  {
    hide LosesDirectory, PublishWorld, PathOf;
    OwnPublish(cfg, w, c, env, id, kind, size);
  }

  lemma RecordedEnds(cfg: Config, w: World, v: Volume, written: bool, id: string, kind: string, size: int)
    requires v.id == id && v.published != []
    ensures !IsStranded(cfg, SaveVolume(w, v, written), id, kind, size)
  {
    hide PathOf, Put, IndexBy;
    FindPut(w.res.volumes, VolumeID, v, id);
  }

  lemma UnpublishStays(cfg: Config, w: World, e: Event, id: string, kind: string, size: int)
    requires IsStranded(cfg, w, id, kind, size) && e.call.NodeUnpublishCall?
    ensures Stays(cfg, w, Step(cfg, w, e), id, kind, size)
  {
    hide Step, Release, SaveVolume, PathOf, IndexBy;
    var c, env, w1 := e.call, e.env, w.(mounts := w.mounts - {e.call.target});
    UnpublishStep(cfg, w, e);
    if Unmounts(w, c, env) {
      OtherReleased(cfg, w1, c.id, env.written, env, id, kind, size);
      Saves(cfg, w1, UnpublishedAt(Find(w.res.volumes, VolumeID, c.id).value, c.target), env.written, id, kind, size);
    }
  }

  lemma SnapshotStays(cfg: Config, w: World, e: Event, id: string, kind: string, size: int)
    requires IsStranded(cfg, w, id, kind, size) && Possible(cfg, w, e) && ForSnapshots(e.call)
    ensures Stays(cfg, w, Step(cfg, w, e), id, kind, size)
  {
    hide IsStranded, HasQuota, Step, HasFree, NewID, PathOf, SnapshotPathOf;
    SnapshotStepKeepsVolumes(cfg, w, e);
    SnapshotStepAdds(cfg, w, e);
    StrandedGone(cfg, w, id, kind, size);
    forall p | p in NewArchives(cfg, e.env) ensures p != PathOf(cfg, id) {
      if p == SnapshotPathOf(cfg, e.env.uuid) {
        NotAnArchive(cfg, w, e.env.uuid, id, kind, size);
      } else {
        var i :| 0 <= i < |e.env.memberIDs| && p == SnapshotPathOf(cfg, e.env.memberIDs[i]);
        NotAnArchive(cfg, w, e.env.memberIDs[i], id, kind, size);
      }
    }
    SameRecords(cfg, w, Step(cfg, w, e), id, kind, size);
  }

  lemma StrandedGone(cfg: Config, w: World, id: string, kind: string, size: int)
    requires IsStranded(cfg, w, id, kind, size)
    ensures PathOf(cfg, id) !in w.files
  {
  }

  lemma NotAnArchive(cfg: Config, w: World, uuid: string, id: string, kind: string, size: int)
    requires IsStranded(cfg, w, id, kind, size) && NewID(w.res, uuid)
    ensures SnapshotPathOf(cfg, uuid) != PathOf(cfg, id)
  {
    hide PathOf;
    NewIsAnother(cfg, w, uuid, id, kind, size);
    PathTellsID(cfg, ArchiveOf(uuid), id);
  }

  lemma ExpandStays(cfg: Config, w: World, e: Event, id: string, kind: string, size: int)
    requires IsStranded(cfg, w, id, kind, size) && e.call.NodeExpandCall?
    ensures Stays(cfg, w, Step(cfg, w, e), id, kind, size)
  {
    hide Step, PathOf, PathsBy, IndexBy;
    ExpandQuotaStep(cfg, w, e);
    SnapshotStepKept(cfg, w, e);
  }

  lemma RestartStaysIff(cfg: Config, w: World, e: Event, id: string, kind: string, size: int)
    requires IsStranded(cfg, w, id, kind, size) && e.call.RestartCall?
    ensures IsStranded(cfg, Step(cfg, w, e), id, kind, size) <==> !Ends(cfg, w, e, id, kind, size)
  {
    hide Started, StoredIdle, PathOf;
  }

  /** A stranded volume stays stranded, exactly unless it is deleted, published without an access type or
      not recalled by a restart; and but for restarts it keeps its quota. */
  lemma StepStrandedIff(cfg: Config, w: World, e: Event, id: string, kind: string, size: int)
    requires SoundWorld(cfg, w) && Possible(cfg, w, e) && IsStranded(cfg, w, id, kind, size)
    ensures IsStranded(cfg, Step(cfg, w, e), id, kind, size) <==> !Ends(cfg, w, e, id, kind, size)
    ensures !Ends(cfg, w, e, id, kind, size) && !e.call.RestartCall? && HasQuota(cfg, w, id) ==>
      HasQuota(cfg, Step(cfg, w, e), id)
  {
    hide SoundWorld, IsStranded, HasQuota, Step, NewID, HasFree, StoredIdle, Deletes, Publishes, Releases;
    if EditsVolume(e.call) {
      EditStays(cfg, w, e, id, kind, size);
    } else if ForSnapshots(e.call) {
      SnapshotStays(cfg, w, e, id, kind, size);
    } else {
      match e.call {
        case CreateVolumeCall(_, _, _, _, _) => CreateStays(cfg, w, e, id, kind, size);
        case DeleteVolumeCall(_) => DeleteStaysIff(cfg, w, e, id, kind, size);
        case NodePublishCall(_, _, _, _, _, _, _) => PublishStaysIff(cfg, w, e, id, kind, size);
        case NodeUnpublishCall(_, _) => UnpublishStays(cfg, w, e, id, kind, size);
        case NodeExpandCall(_, _, _) => ExpandStays(cfg, w, e, id, kind, size);
        case RestartCall => RestartStaysIff(cfg, w, e, id, kind, size);
      }
    }
  }

  // ---------- over runs ----------

  ghost predicate Unended(cfg: Config, w: World, es: seq<Event>, id: string, kind: string, size: int)
    decreases |es|
  {
    || es == []
    || (!Ends(cfg, w, es[0], id, kind, size) && Unended(cfg, Step(cfg, w, es[0]), es[1..], id, kind, size))
  }

  lemma {:induction false} RunStranded(cfg: Config, w: World, es: seq<Event>, id: string, kind: string, size: int)
    requires SoundWorld(cfg, w) && PossibleRun(cfg, w, es) && IsStranded(cfg, w, id, kind, size)
    requires Unended(cfg, w, es, id, kind, size)
    ensures IsStranded(cfg, Run(cfg, w, es), id, kind, size)
    ensures (forall i :: 0 <= i < |es| ==> !es[i].call.RestartCall?) && HasQuota(cfg, w, id) ==>
      HasQuota(cfg, Run(cfg, w, es), id)
    decreases |es|
  {
    hide SoundWorld, IsStranded, HasQuota, Ends, Possible;
    if es != [] {
      StepStrandedIff(cfg, w, es[0], id, kind, size);
      StepSound(cfg, w, es[0]);
      RunStranded(cfg, Step(cfg, w, es[0]), es[1..], id, kind, size);
    }
  }

  /** Meanwhile a publish that has an access type neither mounts nor records anything. */
  lemma StrandedPublish(cfg: Config, w: World, id: string, kind: string, size: int, target: string, staging: string,
                        cap: Capability, singleWriter: bool, context: string, newKind: string, env: Env)
    requires IsStranded(cfg, w, id, kind, size) && cap != NoAccessType
    ensures var (w', reply) :=
        NodePublish(cfg, w, id, target, staging, Some(cap), singleWriter, context, newKind, env);
      && w'.res == w.res && w'.mounts == w.mounts && w'.quotas == w.quotas
      && (reply.Failed? || (reply == Done && target in w.mounts))
  {
    hide Allocate, PublishRefusal, PathOf, SaveVolume;
    var i := IndexBy(w.res.volumes, VolumeID, id);
    assert VolumeName(w.res.volumes[i]) == EphemeralName(id);
  }

  /** An unpublish has nothing to do. */
  lemma StrandedUnpublish(cfg: Config, w: World, id: string, kind: string, size: int, target: string, env: Env)
    requires IsStranded(cfg, w, id, kind, size) && id != "" && target != ""
    ensures NodeUnpublish(cfg, w, id, target, env) == (w, Done)
  {
    hide Release, SaveVolume, PathOf, IndexBy;
  }

  /** And the volume counts in full towards the capacity of its kind. */
  lemma StrandedCounts(cfg: Config, w: World, id: string, kind: string, size: int)
    requires IsStranded(cfg, w, id, kind, size) && NonNegative(w.res.volumes)
    ensures KindSum(w.res.volumes, kind) >= size
  {
    hide PathOf;
    OneOfKind(w.res.volumes, IndexBy(w.res.volumes, VolumeID, id));
  }

  lemma {:induction false} NothingNegative(vs: seq<Volume>, kind: string)
    requires NonNegative(vs)
    ensures KindSum(vs, kind) >= 0
  {
    if vs != [] {
      NothingNegative(vs[..|vs| - 1], kind);
    }
  }

  lemma OneOfKind(vs: seq<Volume>, i: nat)
    requires NonNegative(vs) && i < |vs|
    ensures KindSum(vs, vs[i].kind) >= vs[i].size
  {
    SumSplit(vs, KindSize(vs[i].kind), i);
    NothingNegative(vs[..i], vs[i].kind);
    NothingNegative(vs[i + 1..], vs[i].kind);
  }
}
