// Every step keeps the driver's state sound, so every reachable state is sound, through
// failed writes and restarts from whatever was written last.
module Reachable {
  import opened Base
  import opened Lists
  import opened Sorting
  import opened State
  import opened ProjectIDs
  import opened Quota
  import opened Driver
  import opened Soundness
  import opened Effects

  // ---------- volumes ----------

  lemma SavedVolumeSound(cfg: Config, w: World, v: Volume, written: bool)
    requires SoundWorld(cfg, w) && VolumeSound(cfg, v)
    requires NameFree(w.res.volumes, v) && AttachAllowed(cfg, w.res.volumes, v)
    ensures SoundWorld(cfg, SaveVolume(w, v, written))
  {
    PutVolumeSound(cfg, w.res.volumes, v);
  }

  /** A changed version of a stored volume. */
  lemma UpdatedVolumeSound(cfg: Config, w: World, v: Volume, written: bool)
    requires SoundWorld(cfg, w) && VolumeSound(cfg, v)
    requires Find(w.res.volumes, VolumeID, v.id).Some? && Find(w.res.volumes, VolumeID, v.id).value.name == v.name
    requires AttachAllowed(cfg, w.res.volumes, v)
    ensures SoundWorld(cfg, SaveVolume(w, v, written))
  {
    SavedVolumeSound(cfg, w, v, written);
  }

  lemma RemovedVolumeSound(cfg: Config, w: World, id: string, written: bool)
    requires SoundWorld(cfg, w)
    ensures SoundWorld(cfg, RemoveVolume(w, id, written))
  {
    DropVolumeSound(cfg, w.res.volumes, id);
  }

  /** A new volume needs a name nobody has; it may take over the entry of its own ID. */
  lemma AllocateSound(cfg: Config, w: World, id: string, name: string, size: int64, access: AccessType,
                      ephemeral: bool, kind: string, env: Env)
    requires SoundWorld(cfg, w) && Find(w.res.volumes, VolumeName, name).None?
    ensures SoundWorld(cfg, Allocate(cfg, w, id, name, size, access, ephemeral, kind, env).0)
  {
    match ChooseKind(cfg, w.res.volumes, size, kind, env.order) {
      case Refused(_) =>
      case Chosen(k) =>
        SavedVolumeSound(cfg, w, NewVolume(cfg, id, name, size, access, ephemeral, k), env.written);
    }
  }

  lemma ReleaseSound(cfg: Config, w: World, id: string, written: bool, env: Env)
    requires SoundWorld(cfg, w)
    ensures SoundWorld(cfg, Release(cfg, w, id, written, env).0)
  {
    RemovedVolumeSound(cfg, w, id, written);
  }

  lemma CreateVolumeSound(cfg: Config, w: World, e: Event)
    requires SoundWorld(cfg, w) && e.call.CreateVolumeCall?
    ensures SoundWorld(cfg, Step(cfg, w, e))
  {
    hide SoundWorld, Step, Allocate, Release, CleansUp;
    var c, env := e.call, e.env;
    CreateStep(cfg, w, e);
    if Creates(cfg, w, c) {
      AllocateSound(cfg, w, env.uuid, c.name, c.size, RequestedAccess(c.caps), false, c.kind, env);
      ReleaseSound(cfg, CreatedWorld(cfg, w, c, env).0, env.uuid, env.writtenAgain, env);
    }
  }

  lemma DeleteVolumeSound(cfg: Config, w: World, e: Event)
    requires SoundWorld(cfg, w) && e.call.DeleteVolumeCall?
    ensures SoundWorld(cfg, Step(cfg, w, e))
  {
    hide SoundWorld, Step, Release;
    DeleteStep(cfg, w, e);
    ReleaseSound(cfg, w, e.call.id, e.env.written, e.env);
  }

  /** Attaching stays within the limit, expanding within the maximum size, staging at one path. */
  lemma EditSound(cfg: Config, w: World, e: Event)
    requires SoundWorld(cfg, w) && EditsVolume(e.call)
    ensures SoundWorld(cfg, Step(cfg, w, e))
  {
    hide Step, Put;
    var v := EditStep(cfg, w, e);
    if Step(cfg, w, e) != w {
      UpdatedVolumeSound(cfg, w, v, e.env.written);
    }
  }

  lemma OtherMountsSound(cfg: Config, w: World, mounts: set<string>)
    requires SoundWorld(cfg, w)
    ensures SoundWorld(cfg, w.(mounts := mounts))
  {
  }

  /** Recording a target or taking it off the record. */
  lemma PublishedListSound(cfg: Config, w: World, v: Volume, written: bool)
    requires SoundWorld(cfg, w) && Find(w.res.volumes, VolumeID, v.id).Some?
    requires v == Find(w.res.volumes, VolumeID, v.id).value.(nodeID := v.nodeID, published := v.published)
    ensures SoundWorld(cfg, SaveVolume(w, v, written))
  {
    UpdatedVolumeSound(cfg, w, v, written);
  }

  lemma PublishWorldSound(cfg: Config, w: World, c: Call, env: Env)
    requires SoundWorld(cfg, w) && c.NodePublishCall?
    ensures SoundWorld(cfg, PublishWorld(cfg, w, c, env))
  {
    hide SoundWorld, Allocate;
    if NeedsVolume(cfg, w, c) {
      AllocateSound(cfg, w, c.id, EphemeralName(c.id), EPHEMERAL_SIZE, MountAccess, true, c.kind, env);
    }
  }

  lemma NodePublishSound(cfg: Config, w: World, e: Event)
    requires SoundWorld(cfg, w) && e.call.NodePublishCall?
    ensures SoundWorld(cfg, Step(cfg, w, e))
  {
    hide SoundWorld, Step, PublishWorld, Recordable, LosesDirectory, SaveVolume;
    var c, w1 := e.call, PublishWorld(cfg, w, e.call, e.env);
    PublishStep(cfg, w, e);
    PublishWorldSound(cfg, w, c, e.env);
    SameStateSound(cfg, w1, RefusedWorld(cfg, w, c, e.env));
    if Publishes(cfg, w, c, e.env) {
      var v := Find(w1.res.volumes, VolumeID, c.id).value;
      OtherMountsSound(cfg, w1, MountedWorld(w1, c).mounts);
      PublishedListSound(cfg, MountedWorld(w1, c), PublishedAt(cfg, v, c.target), e.env.writtenAgain);
    }
  }

  lemma NodeUnpublishSound(cfg: Config, w: World, e: Event)
    requires SoundWorld(cfg, w) && e.call.NodeUnpublishCall?
    ensures SoundWorld(cfg, Step(cfg, w, e))
  {
    hide SoundWorld, Step, Release, SaveVolume;
    var c, w1 := e.call, w.(mounts := w.mounts - {e.call.target});
    UnpublishStep(cfg, w, e);
    OtherMountsSound(cfg, w, w1.mounts);
    if Unmounts(w, c, e.env) {
      ReleaseSound(cfg, w1, c.id, e.env.written, e.env);
      PublishedListSound(cfg, w1, UnpublishedAt(Find(w.res.volumes, VolumeID, c.id).value, c.target), e.env.written);
    }
  }

  // ---------- snapshots ----------

  lemma CreateSnapshotSound(cfg: Config, w: World, name: string, volID: string, env: Env)
    requires SoundWorld(cfg, w) && NewID(w.res, env.uuid)
    ensures SoundWorld(cfg, CreateSnapshot(cfg, w, name, volID, env).0)
  {
    match Find(w.res.volumes, VolumeID, volID) {
      case None =>
      case Some(v) =>
        var s := Snapshot(name, env.uuid, volID, SnapshotPathOf(cfg, env.uuid), env.now, v.size, true, "");
        AddSnapshotSound(cfg, w.res, s);
    }
  }

  lemma RemoveSnapshotSound(cfg: Config, w: World, id: string, removed: bool, written: bool)
    requires SoundWorld(cfg, w)
    ensures SoundWorld(cfg, RemoveSnapshot(cfg, w, id, removed, written))
  {
    DropSnapshotSound(cfg, w.res, id);
  }

  // ---------- groups ----------

  /** The member snapshot a group creation makes for one source volume. */
  function NewMember(cfg: Config, vs: seq<Volume>, name: string, source: string, id: string, env: Env): Snapshot {
    var size: int64 := match Find(vs, VolumeID, source) { case Some(v) => v.size case None => 0 };
    Snapshot(MemberName(name, source), id, source, SnapshotPathOf(cfg, id), env.now, size, true, env.uuid)
  }

  function NewMembers(cfg: Config, vs: seq<Volume>, name: string, sources: seq<string>, i: nat, k: nat,
                      env: Env): seq<Snapshot>
    requires i <= k <= |sources| <= |env.memberIDs|
  {
    seq(k - i, j requires 0 <= j < k - i => NewMember(cfg, vs, name, sources[i + j], env.memberIDs[i + j], env))
  }

  lemma NewMembersNext(cfg: Config, before: seq<Snapshot>, vs: seq<Volume>, name: string, sources: seq<string>,
                       i: nat, k: nat, env: Env)
    requires i < k <= |sources| <= |env.memberIDs|
    ensures before + [NewMember(cfg, vs, name, sources[i], env.memberIDs[i], env)]
              + NewMembers(cfg, vs, name, sources, i + 1, k, env)
         == before + NewMembers(cfg, vs, name, sources, i, k, env)
  {
  }

  ghost predicate NewFrom(r: Resources, ids: seq<string>, i: nat) {
    && (forall j :: i <= j < |ids| ==> NewID(r, ids[j]))
    && NoRepeats(ids)
  }

  lemma AddMemberAppends(cfg: Config, w: World, name: string, sources: seq<string>, i: nat, env: Env)
    requires SoundWorld(cfg, w) && i < |sources| <= |env.memberIDs| && NewFrom(w.res, env.memberIDs, i)
    requires AddMember(cfg, w, name, sources[i], i, env).1.None?
    ensures var w' := AddMember(cfg, w, name, sources[i], i, env).0;
      var s := NewMember(cfg, w.res.volumes, name, sources[i], env.memberIDs[i], env);
      && SoundWorld(cfg, w') && NewFrom(w'.res, env.memberIDs, i + 1)
      && w'.res == w.res.(snapshots := w.res.snapshots + [s])
      && w'.mounts == w.mounts && w'.quotas == w.quotas
  {
    var s := NewMember(cfg, w.res.volumes, name, sources[i], env.memberIDs[i], env);
    AddSnapshotSound(cfg, w.res, s);
  }

  /** Creating members appends exactly the new snapshots of sources[i..k], all of them on success. */
  lemma {:induction false} AddMembersAppends(cfg: Config, w: World, name: string, sources: seq<string>, i: nat,
                                             env: Env)
    returns (k: nat)
    requires SoundWorld(cfg, w) && i <= |sources| <= |env.memberIDs| && NewFrom(w.res, env.memberIDs, i)
    ensures i <= k <= |sources|
    ensures var (w', failure) := AddMembers(cfg, w, name, sources, i, env);
      && SoundWorld(cfg, w')
      && w'.res == w.res.(snapshots := w.res.snapshots + NewMembers(cfg, w.res.volumes, name, sources, i, k, env))
      && w'.mounts == w.mounts && w'.quotas == w.quotas
      && (failure.None? <==> k == |sources|)
    decreases |sources| - i
  {
    hide SoundWorld, NewFrom;
    k := i;
    assert w.res.snapshots + NewMembers(cfg, w.res.volumes, name, sources, i, i, env) == w.res.snapshots;
    if i < |sources| {
      var (w1, failure) := AddMember(cfg, w, name, sources[i], i, env);
      if failure.None? {
        AddMemberAppends(cfg, w, name, sources, i, env);
        k := AddMembersAppends(cfg, w1, name, sources, i + 1, env);
        NewMembersNext(cfg, w.res.snapshots, w.res.volumes, name, sources, i, k, env);
      } else {
        SameStateSound(cfg, w, w1);
      }
    }
  }

  /** A creation under a new name appends the first k member snapshots and, when all are there, the
      group. A failure before that leaves those k snapshots behind without a group. */
  lemma CreateGroupOutcome(cfg: Config, w: World, name: string, sources: seq<string>, env: Env) returns (k: nat)
    requires SoundWorld(cfg, w) && |sources| <= |env.memberIDs| && NewID(w.res, env.uuid)
    requires NewFrom(w.res, env.memberIDs, 0)
    requires name != "" && sources != [] && Find(w.res.groups, GroupName, name).None?
    ensures k <= |sources|
    ensures var (w', reply) := CreateGroup(cfg, w, name, sources, env);
      && w'.res.volumes == w.res.volumes
      && w'.res.snapshots == w.res.snapshots + NewMembers(cfg, w.res.volumes, name, sources, 0, k, env)
      && (k < |sources| ==> w'.res.groups == w.res.groups && reply.Failed?)
      && (reply.GroupIs? ==> k == |sources| && reply.id == env.uuid)
      && (reply.GroupIs? || w'.res.groups != w.res.groups ==>
            w'.res.groups == w.res.groups + [Group(name, env.uuid, env.memberIDs[..|sources|], sources, env.now, true)])
  {
    hide SoundWorld, NewFrom;
    k := AddMembersAppends(cfg, w, name, sources, 0, env);
    assert CreateGroup(cfg, w, name, sources, env) == NewGroup(cfg, w, name, sources, env);
    var w1 := AddMembers(cfg, w, name, sources, 0, env).0;
    var g := Group(name, env.uuid, env.memberIDs[..|sources|], sources, env.now, true);
    assert Put(w1.res.groups, GroupID, g) == w1.res.groups + [g];
  }

  /** A snapshot list whose IDs are unique finds each snapshot by its ID. */
  lemma FoundAt(snapshots: seq<Snapshot>, i: nat)
    requires Unique(snapshots, SnapshotID) && i < |snapshots|
    ensures Find(snapshots, SnapshotID, snapshots[i].id) == Some(snapshots[i])
  {
    IndexIs(snapshots, SnapshotID, snapshots[i].id, i);
  }

  lemma NewGroupMatches(cfg: Config, before: seq<Snapshot>, vs: seq<Volume>, name: string, sources: seq<string>,
                        env: Env)
    requires |sources| <= |env.memberIDs| && NoRepeats(env.memberIDs)
    requires forall j :: 0 <= j < |env.memberIDs| ==> Absent(before, SnapshotID, env.memberIDs[j])
    requires Unique(before + NewMembers(cfg, vs, name, sources, 0, |sources|, env), SnapshotID)
    ensures GroupSound(before + NewMembers(cfg, vs, name, sources, 0, |sources|, env),
      Group(name, env.uuid, env.memberIDs[..|sources|], sources, env.now, true))
  {
    var members := NewMembers(cfg, vs, name, sources, 0, |sources|, env);
    var all, ids := before + members, env.memberIDs[..|sources|];
    forall j | 0 <= j < |ids| ensures Find(all, SnapshotID, ids[j]) == Some(members[j]) {
      assert all[|before| + j] == members[j];
      FoundAt(all, |before| + j);
    }
    assert VolumesOf(all, ids) == sources;
    forall i, j | 0 <= i < |before| && 0 <= j < |ids| ensures before[i].id != ids[j] {
      assert SnapshotID(before[i]) != env.memberIDs[j];
    }
  }

  lemma NewGroupSound(cfg: Config, w: World, name: string, sources: seq<string>, env: Env)
    requires SoundWorld(cfg, w) && |sources| <= |env.memberIDs| && NewID(w.res, env.uuid)
    requires NewFrom(w.res, env.memberIDs, 0)
    requires Find(w.res.groups, GroupName, name).None?
    ensures SoundWorld(cfg, NewGroup(cfg, w, name, sources, env).0)
  {
    var k := AddMembersAppends(cfg, w, name, sources, 0, env);
    var (w1, failure) := AddMembers(cfg, w, name, sources, 0, env);
    if failure.None? {
      NewGroupMatches(cfg, w.res.snapshots, w.res.volumes, name, sources, env);
      var g := Group(name, env.uuid, env.memberIDs[..|sources|], sources, env.now, true);
      forall i | 0 <= i < |w1.res.groups| ensures Disjoint(w1.res.groups[i].snapshotIDs, g.snapshotIDs) {
        forall x | x in g.snapshotIDs ensures x !in w1.res.groups[i].snapshotIDs {
          var j :| 0 <= j < |env.memberIDs| && env.memberIDs[j] == x;
          assert NewID(w.res, env.memberIDs[j]);
        }
      }
      AddGroupSound(cfg, w1.res, g);
    }
  }

  lemma SortedLists(w: World, i: nat, ids: seq<string>)
    requires i < |w.res.groups|
    ensures SameUpToOrder(w.res.groups[i], SortSources(w, i, ids).res.groups[i])
    ensures SameUpToOrder(w.res.groups[i], SortMembers(w, i, ids).res.groups[i])
  {
  }

  lemma SortSound(cfg: Config, w: World, i: nat, ids: seq<string>)
    requires SoundWorld(cfg, w) && i < |w.res.groups|
    ensures SoundWorld(cfg, SortSources(w, i, ids)) && SoundWorld(cfg, SortMembers(w, i, ids))
  {
    SortedLists(w, i, ids);
    ReorderGroupSound(cfg, w.res, i, SortSources(w, i, ids).res.groups[i]);
    ReorderGroupSound(cfg, w.res, i, SortMembers(w, i, ids).res.groups[i]);
  }

  lemma CreateGroupSound(cfg: Config, w: World, name: string, sources: seq<string>, env: Env)
    requires SoundWorld(cfg, w) && |sources| <= |env.memberIDs| && NewID(w.res, env.uuid)
    requires NewFrom(w.res, env.memberIDs, 0)
    ensures SoundWorld(cfg, CreateGroup(cfg, w, name, sources, env).0)
  {
    var i := IndexBy(w.res.groups, GroupName, name);
    if i < |w.res.groups| {
      SortSound(cfg, w, i, sources);
    } else {
      NewGroupSound(cfg, w, name, sources, env);
    }
  }

  lemma {:induction false} DropMembersSound(cfg: Config, w: World, ids: seq<string>, i: nat, env: Env)
    requires SoundWorld(cfg, w) && i <= |ids|
    ensures SoundWorld(cfg, DropMembers(cfg, w, ids, i, env).0)
    ensures DropMembers(cfg, w, ids, i, env).0.res.groups == w.res.groups
    decreases |ids| - i
  {
    if i < |ids| {
      RemoveSnapshotSound(cfg, w, ids[i], Outcome(env.removals, i), Outcome(env.writes, i));
      DropMembersSound(cfg, DropAt(cfg, w, ids, i, env), ids, i + 1, env);
    }
  }

  lemma DeleteGroupSound(cfg: Config, w: World, id: string, env: Env)
    requires SoundWorld(cfg, w)
    ensures SoundWorld(cfg, DeleteGroup(cfg, w, id, env).0)
  {
    match Find(w.res.groups, GroupID, id) {
      case None =>
      case Some(g) =>
        DropMembersSound(cfg, w, g.snapshotIDs, 0, env);
        DropGroupSound(cfg, DropMembers(cfg, w, g.snapshotIDs, 0, env).0.res, id);
    }
  }

  lemma GetGroupSound(cfg: Config, w: World, id: string, ids: seq<string>)
    requires SoundWorld(cfg, w)
    ensures SoundWorld(cfg, GetGroup(cfg, w, id, ids).0)
  {
    var i := IndexBy(w.res.groups, GroupID, id);
    if i < |w.res.groups| {
      SortSound(cfg, w, i, ids);
    }
  }

  // ---------- every step and every run ----------

  lemma RestartSound(cfg: Config, w: World, env: Env)
    requires SoundWorld(cfg, w)
    ensures SoundWorld(cfg, Restart(w, env))
  {
    EmptySound(cfg);
  }

  lemma EmptySound(cfg: Config)
    ensures Sound(cfg, EMPTY)
  {
  }

  lemma SnapshotStepSound(cfg: Config, w: World, e: Event)
    requires SoundWorld(cfg, w) && Possible(cfg, w, e) && ForSnapshots(e.call)
    ensures SoundWorld(cfg, Step(cfg, w, e))
  {
    hide SoundWorld, CreateSnapshot, RemoveSnapshot, CreateGroup, DeleteGroup, GetGroup;
    var env := e.env;
    match e.call {
      case CreateSnapshotCall(name, volID) => CreateSnapshotSound(cfg, w, name, volID, env);
      case DeleteSnapshotCall(id) => RemoveSnapshotSound(cfg, w, id, Outcome(env.removals, 0), env.written);
      case CreateGroupCall(name, sources) => CreateGroupSound(cfg, w, name, sources, env);
      case DeleteGroupCall(id) => DeleteGroupSound(cfg, w, id, env);
      case GetGroupCall(id, ids) => GetGroupSound(cfg, w, id, ids);
    }
  }

  lemma SameStateSound(cfg: Config, w: World, w': World)
    requires SoundWorld(cfg, w) && w'.res == w.res && w'.file == w.file
    ensures SoundWorld(cfg, w')
  {
  }

  lemma StepSound(cfg: Config, w: World, e: Event)
    requires SoundWorld(cfg, w) && Possible(cfg, w, e)
    ensures SoundWorld(cfg, Step(cfg, w, e))
  {
    hide SoundWorld, Possible, StepReply;
    if EditsVolume(e.call) {
      EditSound(cfg, w, e);
    } else if ForSnapshots(e.call) {
      SnapshotStepSound(cfg, w, e);
    } else {
      match e.call {
        case CreateVolumeCall(_, _, _, _, _) => CreateVolumeSound(cfg, w, e);
        case DeleteVolumeCall(_) => DeleteVolumeSound(cfg, w, e);
        case NodePublishCall(_, _, _, _, _, _, _) => NodePublishSound(cfg, w, e);
        case NodeUnpublishCall(_, _) => NodeUnpublishSound(cfg, w, e);
        case NodeExpandCall(_, _, _) =>
          ExpandQuotaStep(cfg, w, e);
          SameStateSound(cfg, w, Step(cfg, w, e));
        case RestartCall => RestartStepSound(cfg, w, e);
      }
    }
  }

  lemma RestartStepSound(cfg: Config, w: World, e: Event)
    requires SoundWorld(cfg, w) && e.call.RestartCall?
    ensures SoundWorld(cfg, Step(cfg, w, e))
  {
    hide SoundWorld, Started;
    RestartSound(cfg, w, e.env);
  }

  lemma {:induction false} RunSound(cfg: Config, w: World, es: seq<Event>)
    requires SoundWorld(cfg, w) && PossibleRun(cfg, w, es)
    ensures SoundWorld(cfg, Run(cfg, w, es))
    decreases |es|
  {
    if es != [] {
      StepSound(cfg, w, es[0]);
      RunSound(cfg, Step(cfg, w, es[0]), es[1..]);
    }
  }

  /** From a fresh start, whatever calls, failures and restarts follow: IDs and names of volumes
      are unique, no parent is ever stored, sizes and the number of attachments stay bounded. */
  lemma ReachableVolumes(cfg: Config, w: World, es: seq<Event>)
    requires Initial(w) && PossibleRun(cfg, w, es)
    ensures var vs := Run(cfg, w, es).res.volumes;
      && Unique(vs, VolumeID) && Unique(vs, VolumeName)
      && (forall i :: 0 <= i < |vs| ==>
            vs[i].parentVolID == "" && vs[i].parentSnapID == "" && vs[i].size <= cfg.maxVolumeSize)
      && (cfg.attachLimit > 0 ==> AttachCount(vs) <= cfg.attachLimit)
  {
    EmptySound(cfg);
    RunSound(cfg, w, es);
  }

  /** Every stored group whose members are all stored has, up to order, exactly its source volumes. */
  lemma ReachableGroups(cfg: Config, w: World, es: seq<Event>)
    requires Initial(w) && PossibleRun(cfg, w, es)
    ensures var r := Run(cfg, w, es).res;
      forall g :: g in r.groups ==>
        && |g.snapshotIDs| == |g.sourceVolumeIDs|
        && (AllPresent(r.snapshots, g.snapshotIDs) ==>
              multiset(VolumesOf(r.snapshots, g.snapshotIDs)) == multiset(g.sourceVolumeIDs))
  {
    EmptySound(cfg);
    RunSound(cfg, w, es);
    StoredGroupsSound(cfg, Run(cfg, w, es));
  }

  lemma StoredGroupsSound(cfg: Config, w: World)
    requires SoundWorld(cfg, w)
    ensures forall g :: g in w.res.groups ==> GroupSound(w.res.snapshots, g)
  {
    hide GroupSound;
  }
}
