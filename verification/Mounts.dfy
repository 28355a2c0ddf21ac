// Target paths are exclusive: no path is recorded as published twice, neither in one volume
// nor in two, and every recorded path is mounted.
module Mounts {
  import opened Base
  import opened Lists
  import opened Sorting
  import opened State
  import opened Quota
  import opened Driver
  import opened Effects
  import opened Soundness
  import opened Reachable
  import opened Durable

  ghost predicate PublishedAnywhere(vs: seq<Volume>, t: string) {
    exists i :: 0 <= i < |vs| && t in vs[i].published
  }

  /** No path is recorded twice. */
  ghost predicate Apart(vs: seq<Volume>) {
    && (forall i :: 0 <= i < |vs| ==> NoRepeats(vs[i].published))
    && (forall i, j :: 0 <= i < |vs| && 0 <= j < |vs| && i != j ==> Disjoint(vs[i].published, vs[j].published))
  }

  ghost predicate Exclusive(vs: seq<Volume>, mounts: set<string>) {
    Apart(vs) && forall i, t :: 0 <= i < |vs| && t in vs[i].published ==> t in mounts
  }

  /** The state file never records a path twice either. */
  ghost predicate ExclusiveWorld(w: World) {
    Exclusive(w.res.volumes, w.mounts) && (w.file.Some? ==> Apart(w.file.value.volumes))
  }

  // ---------- list updates ----------

  lemma DropExclusive(vs: seq<Volume>, mounts: set<string>, id: string)
    requires Exclusive(vs, mounts)
    ensures Exclusive(Drop(vs, VolumeID, id), mounts)
  {
    var k, t := IndexBy(vs, VolumeID, id), Drop(vs, VolumeID, id);
    if k < |vs| {
      assert forall j :: 0 <= j < |t| ==> t[j] == vs[if j < k then j else j + 1];
    }
  }

  /** Replacing a volume by one that publishes nothing, or adding such a volume. */
  lemma PutIdleExclusive(vs: seq<Volume>, mounts: set<string>, v: Volume)
    requires Exclusive(vs, mounts) && v.published == []
    ensures Exclusive(Put(vs, VolumeID, v), mounts)
  {
  }

  lemma PutSameExclusive(vs: seq<Volume>, mounts: set<string>, v: Volume)
    requires Exclusive(vs, mounts) && Find(vs, VolumeID, v.id).Some?
    requires Find(vs, VolumeID, v.id).value.published == v.published
    ensures Exclusive(Put(vs, VolumeID, v), mounts)
  {
  }

  ghost predicate RecordsTarget(vs: seq<Volume>, v: Volume, t: string) {
    Find(vs, VolumeID, v.id).Some? && v.published == Find(vs, VolumeID, v.id).value.published + [t]
  }

  lemma RecordOnce(vs: seq<Volume>, before: set<string>, mounts: set<string>, v: Volume, t: string)
    requires Exclusive(vs, before) && before <= mounts && RecordsTarget(vs, v, t)
    requires t in mounts && !PublishedAnywhere(vs, t)
    ensures Exclusive(Put(vs, VolumeID, v), mounts)
  {
    assert forall i :: 0 <= i < |vs| ==> t !in vs[i].published;
    assert v.published[|v.published| - 1] == t;
  }

  lemma RecordTwice(vs: seq<Volume>, mounts: set<string>, v: Volume, t: string)
    requires RecordsTarget(vs, v, t)
    requires t !in mounts || PublishedAnywhere(vs, t)
    ensures !Exclusive(Put(vs, VolumeID, v), mounts)
  {
    var k, after := IndexBy(vs, VolumeID, v.id), Put(vs, VolumeID, v);
    var n := |v.published| - 1;
    assert after[k] == v && v.published[n] == t;
    if PublishedAnywhere(vs, t) {
      var i :| 0 <= i < |vs| && t in vs[i].published;
      if i == k {
        var j :| 0 <= j < n && vs[k].published[j] == t;
        assert v.published[j] == t;
      } else {
        assert t in after[k].published && t in after[i].published;
      }
    }
  }

  /** Recording a target keeps paths exclusive exactly when it is mounted and recorded nowhere yet. */
  lemma RecordExclusiveIff(vs: seq<Volume>, before: set<string>, mounts: set<string>, v: Volume, t: string)
    requires Exclusive(vs, before) && before <= mounts && RecordsTarget(vs, v, t)
    ensures Exclusive(Put(vs, VolumeID, v), mounts) <==> t in mounts && !PublishedAnywhere(vs, t)
  {
    if t in mounts && !PublishedAnywhere(vs, t) {
      RecordOnce(vs, before, mounts, v, t);
    } else {
      RecordTwice(vs, mounts, v, t);
    }
  }

  lemma WithoutOne(s: seq<string>, k: nat)
    requires NoRepeats(s) && k < |s|
    ensures NoRepeats(s[..k] + s[k + 1..])
    ensures forall x :: x in s[..k] + s[k + 1..] <==> x in s && x != s[k]
  {
    var d := s[..k] + s[k + 1..];
    assert forall j :: 0 <= j < |d| ==> d[j] == s[if j < k then j else j + 1];
    forall x | x in s && x != s[k] ensures x in d {
      var j :| 0 <= j < |s| && s[j] == x;
      assert d[if j < k then j else j - 1] == x;
    }
  }

  lemma RemovedOnce(s: seq<string>, t: string)
    requires NoRepeats(s) && t in s
    ensures NoRepeats(Drop(s, Self, t))
    ensures forall x :: x in Drop(s, Self, t) <==> x in s && x != t
  {
    var i :| 0 <= i < |s| && s[i] == t;
    assert Self(s[i]) == t;
    WithoutOne(s, IndexBy(s, Self, t));
  }

  lemma UnrecordExclusive(vs: seq<Volume>, mounts: set<string>, v: Volume, t: string)
    requires Exclusive(vs, mounts) && Find(vs, VolumeID, v.id).Some?
    requires var u := Find(vs, VolumeID, v.id).value; t in u.published && v.published == Drop(u.published, Self, t)
    ensures Exclusive(Put(vs, VolumeID, v), mounts - {t})
  {
    var k := IndexBy(vs, VolumeID, v.id);
    var after := Put(vs, VolumeID, v);
    RemovedOnce(vs[k].published, t);
    forall i, x | 0 <= i < |after| && x in after[i].published ensures x in mounts - {t} {
      if i != k {
        assert Disjoint(vs[k].published, vs[i].published);
      }
    }
  }

  /** Taking the mount away and dropping the whole volume, as an ephemeral unpublish does. */
  lemma DropUnmounted(vs: seq<Volume>, mounts: set<string>, id: string, t: string)
    requires Exclusive(vs, mounts) && Unique(vs, VolumeID)
    requires Find(vs, VolumeID, id).Some? && t in Find(vs, VolumeID, id).value.published
    ensures Exclusive(Drop(vs, VolumeID, id), mounts - {t})
  {
    DropExclusive(vs, mounts, id);
    var k, after := IndexBy(vs, VolumeID, id), Drop(vs, VolumeID, id);
    forall j, x | 0 <= j < |after| && x in after[j].published ensures x in mounts - {t} {
      var i := if j < k then j else j + 1;
      assert after[j] == vs[i] && Disjoint(vs[k].published, vs[i].published);
    }
  }

  // ---------- world updates ----------

  lemma AllocateExclusive(cfg: Config, w: World, id: string, name: string, size: int64, access: AccessType,
                          ephemeral: bool, kind: string, env: Env)
    requires ExclusiveWorld(w)
    ensures ExclusiveWorld(Allocate(cfg, w, id, name, size, access, ephemeral, kind, env).0)
    ensures Allocate(cfg, w, id, name, size, access, ephemeral, kind, env).0.mounts == w.mounts
  {
    match ChooseKind(cfg, w.res.volumes, size, kind, env.order) {
      case Refused(_) =>
      case Chosen(k) =>
        PutIdleExclusive(w.res.volumes, w.mounts, NewVolume(cfg, id, name, size, access, ephemeral, k));
    }
  }

  lemma ReleaseExclusive(cfg: Config, w: World, id: string, written: bool, env: Env)
    requires ExclusiveWorld(w)
    ensures ExclusiveWorld(Release(cfg, w, id, written, env).0)
  {
    DropExclusive(w.res.volumes, w.mounts, id);
  }

  lemma PublishWorldExclusive(cfg: Config, w: World, c: Call, env: Env)
    requires ExclusiveWorld(w) && c.NodePublishCall?
    ensures ExclusiveWorld(PublishWorld(cfg, w, c, env)) && PublishWorld(cfg, w, c, env).mounts == w.mounts
  {
    hide ExclusiveWorld, Allocate;
    AllocateExclusive(cfg, w, c.id, EphemeralName(c.id), EPHEMERAL_SIZE, MountAccess, true, c.kind, env);
  }

  // ---------- calls ----------

  lemma CreateVolumeExclusive(cfg: Config, w: World, e: Event)
    requires ExclusiveWorld(w) && e.call.CreateVolumeCall?
    ensures ExclusiveWorld(Step(cfg, w, e))
  {
    hide ExclusiveWorld, Step, Allocate, Release, Creates, CleansUp;
    var c, env := e.call, e.env;
    CreateStep(cfg, w, e);
    AllocateExclusive(cfg, w, env.uuid, c.name, c.size, RequestedAccess(c.caps), false, c.kind, env);
    ReleaseExclusive(cfg, CreatedWorld(cfg, w, c, env).0, env.uuid, env.writtenAgain, env);
  }

  lemma EditExclusive(cfg: Config, w: World, e: Event)
    requires ExclusiveWorld(w) && EditsVolume(e.call)
    ensures ExclusiveWorld(Step(cfg, w, e))
  {
    hide ExclusiveWorld, Step, SaveVolume;
    var v := EditStep(cfg, w, e);
    if Step(cfg, w, e) != w {
      UpdatedExclusive(w, v, e.env.written);
    }
  }

  lemma UpdatedExclusive(w: World, v: Volume, written: bool)
    requires ExclusiveWorld(w) && Find(w.res.volumes, VolumeID, v.id).Some?
    requires Find(w.res.volumes, VolumeID, v.id).value.published == v.published
    ensures ExclusiveWorld(SaveVolume(w, v, written))
  {
    PutSameExclusive(w.res.volumes, w.mounts, v);
  }

  /** A publish without an access type records its target without mounting it. */
  ghost predicate RecordsBlindly(cfg: Config, w: World, e: Event)
  {
    && e.call.NodePublishCall? && Publishes(cfg, w, e.call, e.env) && e.call.cap.value == NoAccessType
    && (e.call.target !in w.mounts
        || PublishedAnywhere(PublishWorld(cfg, w, e.call, e.env).res.volumes, e.call.target))
  }

  /** An unpublish that unmounts the target and then fails before it is taken off the record. */
  ghost predicate UnmountsOnly(w: World, e: Event) {
    && e.call.NodeUnpublishCall? && Unmounts(w, e.call, e.env)
    && var v := Find(w.res.volumes, VolumeID, e.call.id).value;
       !e.env.targetRemoved || (v.ephemeral && !Removable(v, e.env))
  }

  /** A restart from a state file that records a path nobody has mounted any more. */
  ghost predicate RecallsUnmounted(w: World, e: Event) {
    && e.call.RestartCall? && w.file.Some?
    && exists t :: t !in w.mounts && PublishedAnywhere(w.file.value.volumes, t)
  }

  lemma UnmountedUnrecorded(w: World, target: string)
    requires ExclusiveWorld(w) && target !in w.mounts
    ensures !PublishedAnywhere(w.res.volumes, target)
  {
  }

  lemma PublishedExclusiveIff(cfg: Config, w: World, c: Call, written: bool)
    requires ExclusiveWorld(w) && c.NodePublishCall? && c.cap.Some? && Find(w.res.volumes, VolumeID, c.id).Some?
    requires c.cap.value == NoAccessType || c.target !in w.mounts
    ensures var v := Find(w.res.volumes, VolumeID, c.id).value;
      ExclusiveWorld(SaveVolume(MountedWorld(w, c), PublishedAt(cfg, v, c.target), written)) <==>
        !(c.cap.value == NoAccessType && (c.target !in w.mounts || PublishedAnywhere(w.res.volumes, c.target)))
  {
    hide PublishedAnywhere, Apart;
    var v, w1 := Find(w.res.volumes, VolumeID, c.id).value, MountedWorld(w, c);
    var v' := PublishedAt(cfg, v, c.target);
    RecordExclusiveIff(w.res.volumes, w.mounts, w1.mounts, v', c.target);
    if c.target !in w.mounts {
      UnmountedUnrecorded(w, c.target);
    }
  }

  lemma RecordsMeansUnmounted(cfg: Config, w: World, v: Volume, c: Call, ephemeral: bool, env: Env)
    requires c.NodePublishCall? && c.cap.Some? && Recordable(cfg, w, v, c, ephemeral, env)
    ensures c.cap.value == NoAccessType || c.target !in w.mounts
  {
  }

  lemma NodePublishExclusiveIff(cfg: Config, w: World, e: Event)
    requires ExclusiveWorld(w) && e.call.NodePublishCall?
    ensures ExclusiveWorld(Step(cfg, w, e)) <==> !RecordsBlindly(cfg, w, e)
  {
    hide ExclusiveWorld, PublishedAnywhere, Step, PublishWorld, Recordable, LosesDirectory, SaveVolume, Admitted;
    var c, w1 := e.call, PublishWorld(cfg, w, e.call, e.env);
    PublishStep(cfg, w, e);
    PublishWorldExclusive(cfg, w, c, e.env);
    SameVolumesExclusive(w1, RefusedWorld(cfg, w, c, e.env));
    if Publishes(cfg, w, c, e.env) {
      PublishesMeans(cfg, w, c, e.env);
      var v := Find(w1.res.volumes, VolumeID, c.id).value;
      RecordsMeansUnmounted(cfg, w1, v, c, WantsEphemeral(cfg, c.context), e.env);
      PublishedExclusiveIff(cfg, w1, c, e.env.writtenAgain);
    }
  }

  lemma UnmountedStillRecorded(w: World, id: string, t: string)
    requires Find(w.res.volumes, VolumeID, id).Some? && t in Find(w.res.volumes, VolumeID, id).value.published
    ensures !ExclusiveWorld(w.(mounts := w.mounts - {t}))
  {
  }

  lemma NodeUnpublishExclusiveIff(cfg: Config, w: World, e: Event)
    requires ExclusiveWorld(w) && SoundWorld(cfg, w) && e.call.NodeUnpublishCall?
    ensures ExclusiveWorld(Step(cfg, w, e)) <==> !UnmountsOnly(w, e)
  {
    hide Sound, Apart, Step;
    var c, env := e.call, e.env;
    UnpublishStep(cfg, w, e);
    if Unmounts(w, c, env) {
      var v := Find(w.res.volumes, VolumeID, c.id).value;
      var vs := w.res.volumes;
      UnmountedStillRecorded(w, c.id, c.target);
      UnrecordExclusive(vs, w.mounts, UnpublishedAt(v, c.target), c.target);
      SoundMeansUnique(cfg, w);
      DropUnmounted(vs, w.mounts, c.id, c.target);
    }
  }

  lemma RestartExclusiveIff(cfg: Config, w: World, e: Event)
    requires ExclusiveWorld(w) && e.call.RestartCall?
    ensures ExclusiveWorld(Step(cfg, w, e)) <==> !RecallsUnmounted(w, e)
  {
    hide Started, NoRepeats, Disjoint;
  }

  // ---------- every step and every run ----------

  /** From a state with exclusive paths, a step keeps them exclusive exactly unless it records a target
      blindly, unmounts one without taking it off the record, or restarts from a file that records an
      unmounted one. */
  lemma StepExclusiveIff(cfg: Config, w: World, e: Event)
    requires ExclusiveWorld(w) && SoundWorld(cfg, w)
    ensures ExclusiveWorld(Step(cfg, w, e)) <==>
      !RecordsBlindly(cfg, w, e) && !UnmountsOnly(w, e) && !RecallsUnmounted(w, e)
  {
    hide ExclusiveWorld, SoundWorld, Step;
    if EditsVolume(e.call) {
      EditExclusive(cfg, w, e);
    } else if e.call.NodePublishCall? {
      NodePublishExclusiveIff(cfg, w, e);
    } else if e.call.NodeUnpublishCall? {
      NodeUnpublishExclusiveIff(cfg, w, e);
    } else if e.call.RestartCall? {
      RestartExclusiveIff(cfg, w, e);
    } else if e.call.CreateVolumeCall? {
      CreateVolumeExclusive(cfg, w, e);
    } else if e.call.DeleteVolumeCall? {
      DeleteVolumeExclusive(cfg, w, e);
    } else {
      OtherStepExclusive(cfg, w, e);
    }
  }

  lemma DeleteVolumeExclusive(cfg: Config, w: World, e: Event)
    requires ExclusiveWorld(w) && e.call.DeleteVolumeCall?
    ensures ExclusiveWorld(Step(cfg, w, e))
  {
    hide ExclusiveWorld, Step, Release, Deletes;
    DeleteStep(cfg, w, e);
    ReleaseExclusive(cfg, w, e.call.id, e.env.written, e.env);
  }

  lemma OtherStepExclusive(cfg: Config, w: World, e: Event)
    requires ExclusiveWorld(w) && (e.call.NodeExpandCall? || ForSnapshots(e.call))
    ensures ExclusiveWorld(Step(cfg, w, e))
  {
    hide ExclusiveWorld, Step;
    if ForSnapshots(e.call) {
      SnapshotStepKeepsVolumes(cfg, w, e);
    } else {
      ExpandQuotaStep(cfg, w, e);
    }
    SameVolumesExclusive(w, Step(cfg, w, e));
  }

  lemma SameVolumesExclusive(w: World, w': World)
    requires ExclusiveWorld(w) && w'.res.volumes == w.res.volumes && w'.mounts == w.mounts
    requires w'.file == w.file || (w'.file.Some? && w'.file.value.volumes == w.res.volumes)
    ensures ExclusiveWorld(w')
  {
  }

  /** Every publish has an access type, and what follows an unmount succeeds. */
  predicate OrderlyCall(e: Event) {
    && (e.call.NodePublishCall? && e.call.cap.Some? ==> e.call.cap.value != NoAccessType)
    && (e.call.NodeUnpublishCall? ==> e.env.targetRemoved && e.env.detachOK && e.env.removeOK)
  }

  /** Moreover a restart finds no path on record that is not mounted. */
  ghost predicate Orderly(w: World, e: Event) { OrderlyCall(e) && !RecallsUnmounted(w, e) }

  ghost predicate OrderlyRun(cfg: Config, w: World, es: seq<Event>)
    decreases |es|
  {
    es == [] || (Orderly(w, es[0]) && OrderlyRun(cfg, Step(cfg, w, es[0]), es[1..]))
  }

  /** An up-to-date state file records only what is mounted. */
  lemma CleanRecallsMounted(w: World, e: Event)
    requires ExclusiveWorld(w) && Mirrored(w) && w.clean
    ensures !RecallsUnmounted(w, e)
  {
  }

  lemma StepExclusive(cfg: Config, w: World, e: Event)
    requires ExclusiveWorld(w) && SoundWorld(cfg, w) && Orderly(w, e)
    ensures ExclusiveWorld(Step(cfg, w, e))
  {
    hide ExclusiveWorld, SoundWorld, Step, RecallsUnmounted, PublishWorld;
    StepExclusiveIff(cfg, w, e);
  }

  lemma {:induction false} RunExclusive(cfg: Config, w: World, es: seq<Event>)
    requires ExclusiveWorld(w) && SoundWorld(cfg, w) && PossibleRun(cfg, w, es) && OrderlyRun(cfg, w, es)
    ensures ExclusiveWorld(Run(cfg, w, es)) && SoundWorld(cfg, Run(cfg, w, es))
    decreases |es|
  {
    hide ExclusiveWorld, SoundWorld, Orderly;
    if es != [] {
      StepExclusive(cfg, w, es[0]);
      StepSound(cfg, w, es[0]);
      RunExclusive(cfg, Step(cfg, w, es[0]), es[1..]);
    }
  }

  /** Calls are orderly, and restarts are settled. */
  ghost predicate QuietMountRun(cfg: Config, w: World, es: seq<Event>)
    decreases |es|
  {
    es == [] || (OrderlyCall(es[0]) && Settled(w, es[0]) && QuietMountRun(cfg, Step(cfg, w, es[0]), es[1..]))
  }

  lemma {:induction false} QuietIsOrderly(cfg: Config, w: World, es: seq<Event>)
    requires ExclusiveWorld(w) && SoundWorld(cfg, w) && Mirrored(w) && PossibleRun(cfg, w, es)
    requires QuietMountRun(cfg, w, es)
    ensures OrderlyRun(cfg, w, es)
    decreases |es|
  {
    hide ExclusiveWorld, SoundWorld, Mirrored, Possible, OrderlyCall, RecallsUnmounted;
    if es != [] {
      if es[0].call.RestartCall? {
        CleanRecallsMounted(w, es[0]);
      } else {
        OnlyRestartsRecall(w, es[0]);
      }
      StepExclusive(cfg, w, es[0]);
      StepSound(cfg, w, es[0]);
      StepMirrored(cfg, w, es[0]);
      QuietIsOrderly(cfg, Step(cfg, w, es[0]), es[1..]);
    }
  }

  lemma OnlyRestartsRecall(w: World, e: Event)
    requires !e.call.RestartCall?
    ensures !RecallsUnmounted(w, e)
  {
  }

  /** On every orderly run target paths are exclusive and mounted, even with unforced deletes and overwrites. */
  lemma ReachableExclusive(cfg: Config, w: World, es: seq<Event>)
    requires Initial(w) && PossibleRun(cfg, w, es) && OrderlyRun(cfg, w, es)
    ensures Exclusive(Run(cfg, w, es).res.volumes, Run(cfg, w, es).mounts)
  {
    EmptySound(cfg);
    RunExclusive(cfg, w, es);
  }

  // ---------- single-writer volumes ----------

  ghost predicate Once(vs: seq<Volume>, id: string) {
    forall i :: 0 <= i < |vs| && vs[i].id == id ==> |vs[i].published| <= 1
  }

  /** The volume with this ID, if stored, is published at most once, in memory and in the state file. */
  ghost predicate AtMostOnce(w: World, id: string) {
    Once(w.res.volumes, id) && (w.file.Some? ==> Once(w.file.value.volumes, id))
  }

  lemma SavedOnce(w: World, v: Volume, written: bool, id: string)
    requires AtMostOnce(w, id) && (v.id == id ==> |v.published| <= 1)
    ensures AtMostOnce(SaveVolume(w, v, written), id)
  {
  }

  lemma UpdatedOnce(w: World, v: Volume, written: bool, id: string)
    requires AtMostOnce(w, id) && Find(w.res.volumes, VolumeID, v.id).Some?
    requires |v.published| <= |Find(w.res.volumes, VolumeID, v.id).value.published|
    ensures AtMostOnce(SaveVolume(w, v, written), id)
  {
    SavedOnce(w, v, written, id);
  }

  lemma DroppedOnce(vs: seq<Volume>, gone: string, id: string)
    requires Once(vs, id)
    ensures Once(Drop(vs, VolumeID, gone), id)
  {
    var t := Drop(vs, VolumeID, gone);
    forall j | 0 <= j < |t| && t[j].id == id ensures |t[j].published| <= 1 {
      var i := DropMember(vs, VolumeID, gone, j);
    }
  }

  lemma AllocateOnce(cfg: Config, w: World, newID: string, name: string, size: int64, access: AccessType,
                     ephemeral: bool, kind: string, env: Env, id: string)
    requires AtMostOnce(w, id)
    ensures AtMostOnce(Allocate(cfg, w, newID, name, size, access, ephemeral, kind, env).0, id)
  {
    match ChooseKind(cfg, w.res.volumes, size, kind, env.order) {
      case Refused(_) =>
      case Chosen(k) => SavedOnce(w, NewVolume(cfg, newID, name, size, access, ephemeral, k), env.written, id);
    }
  }

  lemma ReleaseOnce(cfg: Config, w: World, gone: string, written: bool, env: Env, id: string)
    requires AtMostOnce(w, id)
    ensures AtMostOnce(Release(cfg, w, gone, written, env).0, id)
  {
    DroppedOnce(w.res.volumes, gone, id);
  }

  lemma CreateVolumeOnce(cfg: Config, w: World, e: Event, id: string)
    requires AtMostOnce(w, id) && e.call.CreateVolumeCall?
    ensures AtMostOnce(Step(cfg, w, e), id)
  {
    hide AtMostOnce, Step, Allocate, Release, Creates, CleansUp;
    var c, env := e.call, e.env;
    CreateStep(cfg, w, e);
    AllocateOnce(cfg, w, env.uuid, c.name, c.size, RequestedAccess(c.caps), false, c.kind, env, id);
    ReleaseOnce(cfg, CreatedWorld(cfg, w, c, env).0, env.uuid, env.writtenAgain, env, id);
  }

  lemma EditOnce(cfg: Config, w: World, e: Event, id: string)
    requires AtMostOnce(w, id) && EditsVolume(e.call)
    ensures AtMostOnce(Step(cfg, w, e), id)
  {
    hide AtMostOnce, Step, SaveVolume;
    var v := EditStep(cfg, w, e);
    if Step(cfg, w, e) != w {
      UpdatedOnce(w, v, e.env.written, id);
    }
  }

  lemma DropShortens(s: seq<string>, t: string)
    ensures |Drop(s, Self, t)| <= |s|
  {
  }

  lemma UnpublishOnce(cfg: Config, w: World, e: Event, id: string)
    requires AtMostOnce(w, id) && e.call.NodeUnpublishCall?
    ensures AtMostOnce(Step(cfg, w, e), id)
  {
    hide AtMostOnce, Step, Release, SaveVolume;
    var c, w1 := e.call, w.(mounts := w.mounts - {e.call.target});
    UnpublishStep(cfg, w, e);
    SameVolumesOnce(w, w1, id);
    if Unmounts(w, c, e.env) {
      var v := Find(w.res.volumes, VolumeID, c.id).value;
      ReleaseOnce(cfg, w1, c.id, e.env.written, e.env, id);
      DropShortens(v.published, c.target);
      UpdatedOnce(w1, UnpublishedAt(v, c.target), e.env.written, id);
    }
  }

  lemma SameTargetIsMounted(w: World, volID: string, target: string)
    requires ExclusiveWorld(w) && Find(w.res.volumes, VolumeID, volID).Some?
    ensures var v := Find(w.res.volumes, VolumeID, volID).value;
      v.published != [] && !MountedElsewhere(v, target) ==> target in w.mounts
  {
    var v := Find(w.res.volumes, VolumeID, volID).value;
    if v.published != [] && !MountedElsewhere(v, target) {
      assert v.published[0] == target;
      assert target in v.published;
    }
  }

  /** The access-mode check lets a second publish through only at the same path, which is mounted. */
  lemma RecordsFirst(cfg: Config, w: World, c: Call, ephemeral: bool, env: Env)
    requires ExclusiveWorld(w) && c.NodePublishCall? && c.cap.Some? && c.cap.value != NoAccessType && c.singleWriter
    requires var v := Find(w.res.volumes, VolumeID, c.id); v.Some? && Recordable(cfg, w, v.value, c, ephemeral, env)
    ensures Find(w.res.volumes, VolumeID, c.id).value.published == []
  {
    hide ExclusiveWorld, MountedElsewhere;
    SameTargetIsMounted(w, c.id, c.target);
  }

  lemma NodePublishOnce(cfg: Config, w: World, e: Event, id: string)
    requires AtMostOnce(w, id) && ExclusiveWorld(w) && Orderly(w, e)
    requires e.call.NodePublishCall? && (e.call.id == id ==> e.call.singleWriter)
    ensures AtMostOnce(Step(cfg, w, e), id)
  {
    hide AtMostOnce, ExclusiveWorld, Step, Allocate, Recordable, LosesDirectory, SaveVolume;
    var c, w1 := e.call, PublishWorld(cfg, w, e.call, e.env);
    PublishStep(cfg, w, e);
    PublishWorldExclusive(cfg, w, c, e.env);
    AllocateOnce(cfg, w, c.id, EphemeralName(c.id), EPHEMERAL_SIZE, MountAccess, true, c.kind, e.env, id);
    SameVolumesOnce(w1, RefusedWorld(cfg, w, c, e.env), id);
    if Publishes(cfg, w, c, e.env) {
      var v := Find(w1.res.volumes, VolumeID, c.id).value;
      if c.singleWriter {
        RecordsFirst(cfg, w1, c, WantsEphemeral(cfg, c.context), e.env);
      }
      SameVolumesOnce(w1, MountedWorld(w1, c), id);
      SavedOnce(MountedWorld(w1, c), PublishedAt(cfg, v, c.target), e.env.writtenAgain, id);
    }
  }

  lemma SameVolumesOnce(w: World, w': World, id: string)
    requires AtMostOnce(w, id) && w'.res.volumes == w.res.volumes
    requires w'.file == w.file || (w'.file.Some? && w'.file.value.volumes == w.res.volumes)
    ensures AtMostOnce(w', id)
  {
  }

  lemma OtherStepOnce(cfg: Config, w: World, e: Event, id: string)
    requires AtMostOnce(w, id)
    requires e.call.DeleteVolumeCall? || e.call.NodeExpandCall? || e.call.RestartCall? || ForSnapshots(e.call)
    ensures AtMostOnce(Step(cfg, w, e), id)
  {
    hide Release, Started;
    if ForSnapshots(e.call) {
      hide Step;
      SnapshotStepKeepsVolumes(cfg, w, e);
    } else if e.call.DeleteVolumeCall? {
      DeleteStep(cfg, w, e);
      ReleaseOnce(cfg, w, e.call.id, e.env.written, e.env, id);
    } else if e.call.NodeExpandCall? {
      ExpandQuotaStep(cfg, w, e);
    }
  }

  lemma StepOnce(cfg: Config, w: World, e: Event, id: string)
    requires AtMostOnce(w, id) && ExclusiveWorld(w) && Orderly(w, e)
    requires e.call.NodePublishCall? && e.call.id == id ==> e.call.singleWriter
    ensures AtMostOnce(Step(cfg, w, e), id)
  {
    hide AtMostOnce, ExclusiveWorld, Step;
    if EditsVolume(e.call) {
      EditOnce(cfg, w, e, id);
    } else if e.call.NodePublishCall? {
      NodePublishOnce(cfg, w, e, id);
    } else if e.call.NodeUnpublishCall? {
      UnpublishOnce(cfg, w, e, id);
    } else if e.call.CreateVolumeCall? {
      CreateVolumeOnce(cfg, w, e, id);
    } else {
      OtherStepOnce(cfg, w, e, id);
    }
  }

  lemma {:induction false} RunOnce(cfg: Config, w: World, es: seq<Event>, id: string)
    requires AtMostOnce(w, id) && ExclusiveWorld(w) && SoundWorld(cfg, w)
    requires PossibleRun(cfg, w, es) && OrderlyRun(cfg, w, es)
    requires forall i :: 0 <= i < |es| && es[i].call.NodePublishCall? && es[i].call.id == id ==> es[i].call.singleWriter
    ensures AtMostOnce(Run(cfg, w, es), id)
    decreases |es|
  {
    hide AtMostOnce, ExclusiveWorld, SoundWorld, Orderly;
    if es != [] {
      StepOnce(cfg, w, es[0], id);
      StepExclusive(cfg, w, es[0]);
      StepSound(cfg, w, es[0]);
      RunOnce(cfg, Step(cfg, w, es[0]), es[1..], id);
    }
  }

  /** A volume whose every publish asks for SINGLE_NODE_SINGLE_WRITER is never published at two paths. */
  lemma ReachableSingleWriter(cfg: Config, w: World, es: seq<Event>, id: string)
    requires Initial(w) && PossibleRun(cfg, w, es) && OrderlyRun(cfg, w, es)
    requires forall j :: 0 <= j < |es| && es[j].call.NodePublishCall? && es[j].call.id == id ==> es[j].call.singleWriter
    ensures forall v :: v in Run(cfg, w, es).res.volumes && v.id == id ==> |v.published| <= 1
  {
    EmptySound(cfg);
    RunOnce(cfg, w, es, id);
  }
}
