// The other direction: when every mount point is on record, so that nothing stays mounted that
// no volume knows about.
module MountRecords {
  import opened Lists
  import opened State
  import opened ProjectIDs
  import opened Quota
  import opened Driver
  import opened Effects
  import opened Soundness
  import opened Reachable
  import opened Durable
  import opened Mounts

  ghost predicate AllRecorded(vs: seq<Volume>, mounts: set<string>) {
    forall t :: t in mounts ==> PublishedAnywhere(vs, t)
  }

  /** Changing or adding a volume loses the record of exactly the mounted targets that only its
      old version had. */
  lemma PutRecordedIff(vs: seq<Volume>, before: set<string>, mounts: set<string>, v: Volume)
    requires Exclusive(vs, before) && AllRecorded(vs, before)
    requires forall t :: t in mounts ==> t in before || t in v.published
    ensures AllRecorded(Put(vs, VolumeID, v), mounts) <==>
      (match Find(vs, VolumeID, v.id)
       case None => true
       case Some(u) => forall t :: t in u.published && t in mounts ==> t in v.published)
  {
    hide IndexBy, NoRepeats;
    var k, after := IndexBy(vs, VolumeID, v.id), Put(vs, VolumeID, v);
    assert after[k] == v;
    forall t | t in mounts && t !in v.published
      ensures PublishedAnywhere(after, t) <==> !(k < |vs| && t in vs[k].published)
    {
      var i :| 0 <= i < |vs| && t in vs[i].published;
      if i == k {
        forall j | 0 <= j < |after| ensures t !in after[j].published {
          assert j != k ==> Disjoint(vs[k].published, vs[j].published);
        }
      } else {
        assert t in after[i].published;
        assert k < |vs| ==> Disjoint(vs[i].published, vs[k].published);
      }
    }
    forall t | t in mounts && t in v.published ensures PublishedAnywhere(after, t) {
      assert t in after[k].published;
    }
  }

  lemma DropRecordedIff(vs: seq<Volume>, before: set<string>, mounts: set<string>, id: string)
    requires Exclusive(vs, before) && AllRecorded(vs, before) && mounts <= before && Find(vs, VolumeID, id).Some?
    ensures AllRecorded(Drop(vs, VolumeID, id), mounts) <==>
      forall t :: t in Find(vs, VolumeID, id).value.published ==> t !in mounts
  {
    hide IndexBy, NoRepeats;
    var k, after := IndexBy(vs, VolumeID, id), Drop(vs, VolumeID, id);
    assert forall j :: 0 <= j < |after| ==> after[j] == vs[if j < k then j else j + 1];
    forall t | t in mounts ensures PublishedAnywhere(after, t) <==> t !in vs[k].published {
      var i :| 0 <= i < |vs| && t in vs[i].published;
      if i == k {
        forall j | 0 <= j < |after| ensures t !in after[j].published {
          assert Disjoint(vs[k].published, vs[if j < k then j else j + 1].published);
        }
      } else {
        assert t in after[if i < k then i else i - 1].published;
        assert Disjoint(vs[i].published, vs[k].published);
      }
    }
  }

  /** A volume with mounted targets is overwritten by an ephemeral one of the same ID. */
  ghost predicate OverwritesPublished(cfg: Config, w: World, c: Call, env: Env)
    requires c.NodePublishCall?
  {
    var u := Find(w.res.volumes, VolumeID, c.id);
    && NeedsVolume(cfg, w, c) && Stores(cfg, w, EPHEMERAL_SIZE, c.kind, env)
    && u.Some? && u.value.published != []
    && !(Publishes(cfg, w, c, env) && u.value.published == [c.target])
  }

  /** The step forgets a volume, or a version of it, with a target that stays mounted. */
  ghost predicate LeavesMounted(cfg: Config, w: World, e: Event)
  {
    match e.call
    case DeleteVolumeCall(id) =>
      && Deletes(cfg, w, e.call)
      && var v := Find(w.res.volumes, VolumeID, id).value; Removable(v, e.env) && v.published != []
    case NodePublishCall(_, _, _, _, _, _, _) => OverwritesPublished(cfg, w, e.call, e.env)
    case NodeUnpublishCall(id, target) =>
      && Unmounts(w, e.call, e.env) && e.env.targetRemoved
      && var v := Find(w.res.volumes, VolumeID, id).value;
         v.ephemeral && Removable(v, e.env) && v.published != [target]
    case RestartCall => exists t :: t in w.mounts && !PublishedAnywhere(Restored(w).volumes, t)
    case _ => false
  }

  ghost predicate RecordedWorld(w: World) { AllRecorded(w.res.volumes, w.mounts) }

  lemma CreateVolumeRecorded(cfg: Config, w: World, e: Event)
    requires ExclusiveWorld(w) && RecordedWorld(w) && Possible(cfg, w, e) && e.call.CreateVolumeCall?
    ensures RecordedWorld(Step(cfg, w, e))
  {
    hide Exclusive, AllRecorded, Step, CleansUp, LoadContent;
    var c, env := e.call, e.env;
    CreateStep(cfg, w, e);
    match ChooseKind(cfg, w.res.volumes, c.size, c.kind, env.order) {
      case Refused(_) =>
      case Chosen(k) =>
        var v := NewVolume(cfg, env.uuid, c.name, c.size, RequestedAccess(c.caps), false, k);
        PutRecordedIff(w.res.volumes, w.mounts, w.mounts, v);
        PutThenDrop(w.res.volumes, VolumeID, v);
    }
  }

  lemma EditRecorded(cfg: Config, w: World, e: Event)
    requires ExclusiveWorld(w) && RecordedWorld(w) && EditsVolume(e.call)
    ensures RecordedWorld(Step(cfg, w, e))
  {
    hide Exclusive, AllRecorded, Step, Put;
    var v := EditStep(cfg, w, e);
    if Step(cfg, w, e) != w {
      PutRecordedIff(w.res.volumes, w.mounts, w.mounts, v);
    }
  }

  lemma DeleteVolumeRecordedIff(cfg: Config, w: World, e: Event)
    requires ExclusiveWorld(w) && RecordedWorld(w) && e.call.DeleteVolumeCall?
    ensures RecordedWorld(Step(cfg, w, e)) <==> !LeavesMounted(cfg, w, e)
  {
    hide AllRecorded, Step, Drop;
    DeleteStep(cfg, w, e);
    if Deletes(cfg, w, e.call) {
      var v := Find(w.res.volumes, VolumeID, e.call.id).value;
      DropRecordedIff(w.res.volumes, w.mounts, w.mounts, e.call.id);
      assert v.published != [] ==> v.published[0] in v.published;
    }
  }

  lemma OnlyThat(s: seq<string>, t: string)
    requires NoRepeats(s) && t in s
    ensures s == [t] <==> forall x :: x in s ==> x == t
  {
    assert forall i :: 0 <= i < |s| ==> s[i] in s;
    if |s| > 1 {
      assert s[if s[0] == t then 1 else 0] != t;
    }
  }

  lemma UnpublishRecordedIff(cfg: Config, w: World, e: Event)
    requires ExclusiveWorld(w) && RecordedWorld(w) && e.call.NodeUnpublishCall?
    ensures RecordedWorld(Step(cfg, w, e)) <==> !LeavesMounted(cfg, w, e)
  {
    hide PublishedAnywhere, Step, Drop;
    var c, env := e.call, e.env;
    UnpublishStep(cfg, w, e);
    if Unmounts(w, c, env) {
      var v, left := Find(w.res.volumes, VolumeID, c.id).value, w.mounts - {c.target};
      OnlyThat(v.published, c.target);
      RemovedOnce(v.published, c.target);
      DropRecordedIff(w.res.volumes, w.mounts, left, c.id);
      PutRecordedIff(w.res.volumes, w.mounts, left, UnpublishedAt(v, c.target));
    }
  }

  lemma OverwriteRecordedIff(cfg: Config, w: World, e: Event)
    requires ExclusiveWorld(w) && RecordedWorld(w) && e.call.NodePublishCall?
    requires NeedsVolume(cfg, w, e.call) && Stores(cfg, w, EPHEMERAL_SIZE, e.call.kind, e.env)
    ensures RecordedWorld(Step(cfg, w, e)) <==> !LeavesMounted(cfg, w, e)
  {
    hide AllRecorded, Step, PublishWorld, Publishes, Put, Apart, NeedsVolume;
    var v := StoredAndPublished(cfg, w, e);
    var w', u := Step(cfg, w, e), Find(w.res.volumes, VolumeID, e.call.id);
    PutRecordedIff(w.res.volumes, w.mounts, w'.mounts, v);
    if u.Some? && u.value.published != [] {
      assert u.value.published[0] in u.value.published;
      FoundApart(w.res.volumes, w.mounts, e.call.id);
      if e.call.target in u.value.published {
        OnlyThat(u.value.published, e.call.target);
      }
    }
  }

  lemma FoundApart(vs: seq<Volume>, mounts: set<string>, id: string)
    requires Exclusive(vs, mounts) && Find(vs, VolumeID, id).Some?
    ensures NoRepeats(Find(vs, VolumeID, id).value.published)
    ensures forall t :: t in Find(vs, VolumeID, id).value.published ==> t in mounts
  {
  }

  lemma PublishRecordedIff(cfg: Config, w: World, e: Event)
    requires ExclusiveWorld(w) && RecordedWorld(w) && e.call.NodePublishCall?
    ensures RecordedWorld(Step(cfg, w, e)) <==> !LeavesMounted(cfg, w, e)
  {
    hide Exclusive, AllRecorded, Step, Recordable, Put;
    var c, w1 := e.call, PublishWorld(cfg, w, e.call, e.env);
    if NeedsVolume(cfg, w, c) && Stores(cfg, w, EPHEMERAL_SIZE, c.kind, e.env) {
      OverwriteRecordedIff(cfg, w, e);
    } else {
      PublishStep(cfg, w, e);
      if Publishes(cfg, w, c, e.env) {
        var v := Find(w.res.volumes, VolumeID, c.id).value;
        var v' := PublishedAt(cfg, v, c.target);
        assert v'.published[|v.published|] == c.target;
        PutRecordedIff(w.res.volumes, w.mounts, MountedWorld(w, c).mounts, v');
      }
    }
  }

  lemma OtherStepRecordedIff(cfg: Config, w: World, e: Event)
    requires RecordedWorld(w)
    requires e.call.NodeExpandCall? || e.call.RestartCall? || ForSnapshots(e.call)
    ensures RecordedWorld(Step(cfg, w, e)) <==> !LeavesMounted(cfg, w, e)
  {
    hide PublishedAnywhere, Started;
    if ForSnapshots(e.call) {
      hide Step;
      SnapshotStepKeepsVolumes(cfg, w, e);
    } else if e.call.NodeExpandCall? {
      hide Step;
      ExpandQuotaStep(cfg, w, e);
    }
  }

  /** Where every mounted target is on record, a step keeps it so exactly unless it forgets a volume that
      has a target which stays mounted: by deleting it unforced, by overwriting it, by unpublishing only
      one target of an ephemeral volume, or by restarting from a file that does not have it. */
  lemma StepRecordedIff(cfg: Config, w: World, e: Event)
    requires ExclusiveWorld(w) && RecordedWorld(w) && Possible(cfg, w, e)
    ensures RecordedWorld(Step(cfg, w, e)) <==> !LeavesMounted(cfg, w, e)
  {
    hide ExclusiveWorld, RecordedWorld, Step, NewID, HasFree;
    if EditsVolume(e.call) {
      EditRecorded(cfg, w, e);
    } else if e.call.CreateVolumeCall? {
      CreateVolumeRecorded(cfg, w, e);
    } else if e.call.DeleteVolumeCall? {
      DeleteVolumeRecordedIff(cfg, w, e);
    } else if e.call.NodePublishCall? {
      PublishRecordedIff(cfg, w, e);
    } else if e.call.NodeUnpublishCall? {
      UnpublishRecordedIff(cfg, w, e);
    } else {
      OtherStepRecordedIff(cfg, w, e);
    }
  }

  ghost predicate TidyRun(cfg: Config, w: World, es: seq<Event>)
    decreases |es|
  {
    es == [] || (Orderly(w, es[0]) && !LeavesMounted(cfg, w, es[0]) && TidyRun(cfg, Step(cfg, w, es[0]), es[1..]))
  }

  lemma {:induction false} RunTidy(cfg: Config, w: World, es: seq<Event>)
    requires ExclusiveWorld(w) && RecordedWorld(w) && SoundWorld(cfg, w) && PossibleRun(cfg, w, es)
    requires TidyRun(cfg, w, es)
    ensures ExclusiveWorld(Run(cfg, w, es)) && RecordedWorld(Run(cfg, w, es))
    decreases |es|
  {
    hide ExclusiveWorld, RecordedWorld, SoundWorld, Orderly, LeavesMounted;
    if es != [] {
      StepExclusive(cfg, w, es[0]);
      StepRecordedIff(cfg, w, es[0]);
      StepSound(cfg, w, es[0]);
      RunTidy(cfg, Step(cfg, w, es[0]), es[1..]);
    }
  }

  /** An up-to-date state file has every volume with a mounted target. */
  lemma CleanLeavesNothing(cfg: Config, w: World, e: Event)
    requires e.call.RestartCall? && Mirrored(w) && w.clean && RecordedWorld(w)
    ensures !LeavesMounted(cfg, w, e)
  {
  }

  /** Calls are orderly and leave no mount behind, and restarts are settled. */
  ghost predicate QuietTidyRun(cfg: Config, w: World, es: seq<Event>)
    decreases |es|
  {
    || es == []
    || (OrderlyCall(es[0]) && Settled(w, es[0]) && (!es[0].call.RestartCall? ==> !LeavesMounted(cfg, w, es[0]))
        && QuietTidyRun(cfg, Step(cfg, w, es[0]), es[1..]))
  }

  lemma {:induction false} QuietIsTidy(cfg: Config, w: World, es: seq<Event>)
    requires ExclusiveWorld(w) && RecordedWorld(w) && SoundWorld(cfg, w) && Mirrored(w) && PossibleRun(cfg, w, es)
    requires QuietTidyRun(cfg, w, es)
    ensures TidyRun(cfg, w, es)
    decreases |es|
  {
    hide ExclusiveWorld, RecordedWorld, SoundWorld, Mirrored, Possible, OrderlyCall, LeavesMounted, RecallsUnmounted;
    if es != [] {
      if es[0].call.RestartCall? {
        CleanRecallsMounted(w, es[0]);
        CleanLeavesNothing(cfg, w, es[0]);
      } else {
        OnlyRestartsRecall(w, es[0]);
      }
      StepExclusive(cfg, w, es[0]);
      StepRecordedIff(cfg, w, es[0]);
      StepSound(cfg, w, es[0]);
      StepMirrored(cfg, w, es[0]);
      QuietIsTidy(cfg, Step(cfg, w, es[0]), es[1..]);
    }
  }

  /** Where no step leaves a mount behind, the mount points are exactly the recorded targets. */
  lemma ReachableMounts(cfg: Config, w: World, es: seq<Event>, t: string)
    requires Initial(w) && PossibleRun(cfg, w, es) && TidyRun(cfg, w, es)
    ensures t in Run(cfg, w, es).mounts <==> PublishedAnywhere(Run(cfg, w, es).res.volumes, t)
  {
    EmptySound(cfg);
    RunTidy(cfg, w, es);
  }
}
