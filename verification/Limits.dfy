// Where a promise of the driver ends: concrete runs from a fresh start on which it fails, although at
// most one state write, mount or allocation does. The exact conditions are StepNestedIff,
// StepExclusiveIff, StepRecordedIff, StepBackedIff, StepArchivedIff, StepHousedIff, StepCoveredIff,
// StepQuotaedIff, ExpandLeavesCapIff, ExpandWithinIff, StepCompleteIff and RestartIDsIff.
module Limits {
  import opened Base
  import opened Lists
  import opened State
  import opened ProjectIDs
  import opened ProjectsFile
  import opened Quota
  import opened Sizes
  import opened Driver
  import opened Effects
  import opened Soundness
  import opened Reachable
  import opened Lifecycle
  import opened Capacity
  import opened Mounts
  import opened Groups
  import opened NodeFiles
  import opened Backing
  import opened QuotaFile
  import opened QuotaTable
  import opened QuotaCaps

  // ---------- a fresh node ----------

  const PLAIN := Config("node", "/data", 0x4000_0000, 0, map[], false, false, true, 1000, true)
  const TRACKED := PLAIN.(capacity := map["fast" := 10])
  const FRESH := World(EMPTY, None, true, {}, {}, Enabled(map[], Padding(), true))

  /** Visits the given directory first where a table has it. */
  ghost function Visiting(first: string): Visit {
    (ds: Directories) => if first in ds then FirstVisited(first, ds) else AnyOrder(ds)
  }

  /** Every outcome is a success, the next UUID is the given one, and printouts begin with `first`. */
  ghost function Success(uuid: string, order: seq<string>, first: string): Env {
    Env(uuid, [], 0, order, true, true, [], true, false, [], [], true, true, true, true, true, true, true, true, true,
        Directory, {}, Outcomes(Visiting(first), true, true, true, true, true, true, true, {}, []))
  }

  ghost function Smooth(uuid: string, order: seq<string>): Env { Success(uuid, order, "") }

  lemma SuccessMeans(uuid: string, order: seq<string>, first: string)
    ensures var env := Success(uuid, order, first);
      && env.uuid == uuid && env.order == order && env.memberIDs == [] && env.lost == {}
      && env.filesOK && env.written && env.writtenAgain
      && QuotasSucceed(env.quota) && env.quota.visit == Visiting(first)
  {
    hide VisitsAll;
  }

  function Request(name: string, size: int64, kind: string): Call {
    CreateVolumeCall(name, [Mount], size, kind, NoSource)
  }

  function Fresh(cfg: Config, id: string, name: string, size: int64, kind: string): Volume {
    NewVolume(cfg, id, name, size, MountAccess, false, kind)
  }

  // ---------- possible steps ----------

  /** Only volumes, none of them with this ID or that of its archive. */
  ghost predicate Unused(r: Resources, uuid: string) {
    && r.snapshots == [] && r.groups == []
    && forall i :: 0 <= i < |r.volumes| ==> r.volumes[i].id != uuid && r.volumes[i].id != ArchiveOf(uuid)
  }

  lemma NextPossible(cfg: Config, w: World, e: Event)
    requires Unused(w.res, e.env.uuid) && (w.file.Some? ==> Unused(w.file.value, e.env.uuid))
    requires HasFree(TableOf(w.quotas)) && e.env.memberIDs == [] && !e.call.CreateGroupCall?
    requires forall k :: k in e.env.order <==> k in cfg.capacity
    ensures Possible(cfg, w, e)
  {
    hide HasFree;
  }

  lemma RunNext(cfg: Config, w: World, e: Event, es: seq<Event>)
    requires Possible(cfg, w, e) && PossibleRun(cfg, Step(cfg, w, e), es)
    ensures PossibleRun(cfg, w, [e] + es) && Run(cfg, w, [e] + es) == Run(cfg, Step(cfg, w, e), es)
  {
    hide Possible, Step;
    assert ([e] + es)[0] == e && ([e] + es)[1..] == es;
  }

  lemma OneStep(cfg: Config, w: World, e: Event)
    requires Possible(cfg, w, e)
    ensures PossibleRun(cfg, w, [e]) && Run(cfg, w, [e]) == Step(cfg, w, e)
  {
    RunNext(cfg, w, e, []);
    assert [e] + [] == [e];
  }

  lemma TwoSteps(cfg: Config, w: World, e1: Event, e2: Event)
    requires Possible(cfg, w, e1) && Possible(cfg, Step(cfg, w, e1), e2)
    ensures PossibleRun(cfg, w, [e1, e2]) && Run(cfg, w, [e1, e2]) == Step(cfg, Step(cfg, w, e1), e2)
  {
    hide Possible, Step;
    OneStep(cfg, Step(cfg, w, e1), e2);
    RunNext(cfg, w, e1, [e2]);
    assert [e1] + [e2] == [e1, e2];
  }

  lemma ThreeSteps(cfg: Config, w: World, e1: Event, e2: Event, e3: Event)
    requires Possible(cfg, w, e1) && Possible(cfg, Step(cfg, w, e1), e2)
    requires Possible(cfg, Step(cfg, Step(cfg, w, e1), e2), e3)
    ensures PossibleRun(cfg, w, [e1, e2, e3])
    ensures Run(cfg, w, [e1, e2, e3]) == Step(cfg, Step(cfg, Step(cfg, w, e1), e2), e3)
  {
    hide Possible, Step;
    TwoSteps(cfg, Step(cfg, w, e1), e2, e3);
    RunNext(cfg, w, e1, [e2, e3]);
    assert [e1] + [e2, e3] == [e1, e2, e3];
  }

  lemma OnlyVolume(v: Volume)
    ensures Find([v], VolumeID, v.id) == Some(v) && Find([v], VolumeName, v.name) == Some(v)
    ensures forall u: Volume :: u.id == v.id ==> Put([v], VolumeID, u) == [u]
    ensures Drop([v], VolumeID, v.id) == []
  {
    IndexIs([v], VolumeID, v.id, 0);
    IndexIs([v], VolumeName, v.name, 0);
  }

  lemma SmallTable(ds: Directories, dir: string, cap: string)
    requires |ds| < 1000
    ensures HasFree(ds) && HasFree(Added(ds, dir, cap, true)) && |Added(ds, dir, cap, true)| <= |ds| + 1
  {
    RoomBelowLimit(ds);
    var ds' := Added(ds, dir, cap, true);
    assert ds'.Keys == ds.Keys + {dir};
    assert |ds'.Keys| <= |ds.Keys| + 1;
    RoomBelowLimit(ds');
  }

  /** A successful addition dumps the table as it then is. */
  lemma AddingSucceeds(q: Quotas, dir: string, cap: string, o: Outcomes)
    requires q.Enabled? && QuotasSucceed(o)
    ensures var ds := Added(q.table, dir, cap, true);
      Adding(q, dir, cap, o) == Enabled(ds, Print(o.visit(ds), ds), true)
  {
    hide IsOrder, LeastFree, HasFree;
  }

  /** Creating a volume where everything succeeds. */
  lemma Created(cfg: Config, w: World, name: string, size: int64, kind: string, env: Env)
    requires !cfg.ephemeral && name != "" && ChooseKind(cfg, w.res.volumes, size, kind, env.order) == Chosen(kind)
    requires Find(w.res.volumes, VolumeName, name).None? && Unused(w.res, env.uuid)
    requires env.filesOK && env.written
    ensures var v, w' := Fresh(cfg, env.uuid, name, size, kind), Step(cfg, w, Event(Request(name, size, kind), env));
      && w'.res == w.res.(volumes := w.res.volumes + [v]) && w'.file == Some(w'.res) && w'.clean
      && w'.mounts == w.mounts && w'.files == w.files + {PathOf(cfg, env.uuid)}
      && w'.quotas == Adding(w.quotas, PathOf(cfg, env.uuid), SizeText(size as real), env.quota)
  {
    hide Adding, SizeText, PathOf, Step;
    CreateStep(cfg, w, Event(Request(name, size, kind), env));
    PutThenDrop(w.res.volumes, VolumeID, Fresh(cfg, env.uuid, name, size, kind));
  }

  /** A first volume "a" on the fresh node. */
  lemma FirstStep(cfg: Config, name: string, size: int64, kind: string, env: Env)
    requires !cfg.ephemeral && name != "" && ChooseKind(cfg, [], size, kind, env.order) == Chosen(kind)
    requires env == Success("a", env.order, "") && forall k :: k in env.order <==> k in cfg.capacity
    ensures var e := Event(Request(name, size, kind), env);
      && Possible(cfg, FRESH, e)
      && var w := Step(cfg, FRESH, e);
      && w.res == Resources([Fresh(cfg, "a", name, size, kind)], [], []) && w.file == Some(w.res) && w.clean
      && w.mounts == {} && w.files == {PathOf(cfg, "a")} && HasFree(TableOf(w.quotas))
      && w.quotas.Enabled? && w.quotas.table == Added(map[], PathOf(cfg, "a"), SizeText(size as real), true)
  {
    var dir, cap := PathOf(cfg, "a"), SizeText(size as real);
    SmallTable(map[], dir, cap);
    hide HasFree, SizeText, PathOf, Added, Adding, Step, Print;
    NextPossible(cfg, FRESH, Event(Request(name, size, kind), env));
    Created(cfg, FRESH, name, size, kind, env);
    AddingSucceeds(FRESH.quotas, dir, cap, env.quota);
  }

  // ---------- lifecycle ----------

  /** A volume created under the generated name of its own ID gets published without being staged. */
  lemma NestingCanFail() returns (es: seq<Event>)
    ensures Initial(FRESH) && PossibleRun(PLAIN, FRESH, es)
    ensures !NestedWorld(PLAIN, Run(PLAIN, FRESH, es))
  {
    var e1 := Event(Request("ephemeral-a", 5, ""), Smooth("a", []));
    var e2 := Event(NodePublishCall("a", "/t", "/s", Some(Mount), false, "true", ""), Smooth("b", []));
    es := [e1, e2];
    assert ChooseKind(PLAIN, [], 5, "", []) == Chosen("");
    hide PublishesUnstaged, NestedWorld, Possible, Step, HasFree;
    FirstStep(PLAIN, "ephemeral-a", 5, "", Smooth("a", []));
    var w1 := Step(PLAIN, FRESH, e1);
    NextPossible(PLAIN, w1, e2);
    FirstVolumePublishedUnstaged(w1, e2);
    FirstNested(PLAIN, w1);
    StepNestedIff(PLAIN, w1, e2);
    TwoSteps(PLAIN, FRESH, e1, e2);
  }

  lemma FirstVolumePublishedUnstaged(w: World, e: Event)
    requires e == Event(NodePublishCall("a", "/t", "/s", Some(Mount), false, "true", ""), Smooth("b", []))
    requires w.res == Resources([Fresh(PLAIN, "a", "ephemeral-a", 5, "")], [], []) && w.mounts == {}
    requires PathOf(PLAIN, "a") in w.files
    ensures PublishesUnstaged(PLAIN, w, e)
  {
    OnlyVolume(Fresh(PLAIN, "a", "ephemeral-a", 5, ""));
    assert EphemeralName("a") == "ephemeral-a";
  }

  lemma FirstNested(cfg: Config, w: World)
    requires w.res.volumes == [Fresh(cfg, "a", "ephemeral-a", 5, "")] && w.file == Some(w.res)
    ensures NestedWorld(cfg, w)
  {
  }

  // ---------- target paths ----------

  /** A publish without an access type records a target that is not mounted. */
  lemma ExclusiveCanFail() returns (es: seq<Event>)
    ensures Initial(FRESH) && PossibleRun(PLAIN, FRESH, es)
    ensures !ExclusiveWorld(Run(PLAIN, FRESH, es))
  {
    hide SoundWorld, RecordsBlindly, ExclusiveWorld, Possible, Step, HasFree;
    var e1 := Event(Request("ephemeral-a", 5, ""), Smooth("a", []));
    var e2 := Event(NodePublishCall("a", "/t", "/s", Some(NoAccessType), false, "true", ""), Smooth("b", []));
    es := [e1, e2];
    assert ChooseKind(PLAIN, [], 5, "", []) == Chosen("");
    FirstStep(PLAIN, "ephemeral-a", 5, "", Smooth("a", []));
    var w1 := Step(PLAIN, FRESH, e1);
    FreshIsSound(PLAIN);
    StepSound(PLAIN, FRESH, e1);
    NextPossible(PLAIN, w1, e2);
    FirstVolumeRecordedBlindly(w1, e2);
    FirstExclusive(PLAIN, w1);
    StepExclusiveIff(PLAIN, w1, e2);
    TwoSteps(PLAIN, FRESH, e1, e2);
  }

  lemma FirstVolumeRecordedBlindly(w: World, e: Event)
    requires e == Event(NodePublishCall("a", "/t", "/s", Some(NoAccessType), false, "true", ""), Smooth("b", []))
    requires w.res == Resources([Fresh(PLAIN, "a", "ephemeral-a", 5, "")], [], []) && w.mounts == {}
    requires HasFree(TableOf(w.quotas))
    ensures RecordsBlindly(PLAIN, w, e)
  {
    OnlyVolume(Fresh(PLAIN, "a", "ephemeral-a", 5, ""));
    assert EphemeralName("a") == "ephemeral-a";
  }

  lemma FreshIsSound(cfg: Config)
    ensures SoundWorld(cfg, FRESH)
  {
    EmptySound(cfg);
  }

  lemma FirstExclusive(cfg: Config, w: World)
    requires w.res.volumes == [Fresh(cfg, "a", "ephemeral-a", 5, "")] && w.file == Some(w.res)
    ensures ExclusiveWorld(w)
  {
  }

  // ---------- ephemeral volumes ----------

  function Publish(target: string): Call { NodePublishCall("a", target, "", Some(Mount), false, "true", "") }

  function Ephemeral(targets: seq<string>): Volume {
    NewVolume(PLAIN, "a", "ephemeral-a", EPHEMERAL_SIZE, MountAccess, true, "")
      .(nodeID := PLAIN.nodeID, published := targets)
  }

  lemma FirstAllocated(env: Env)
    requires env == Smooth("u", [])
    ensures var (w, failure) := Allocate(PLAIN, FRESH, "a", "ephemeral-a", EPHEMERAL_SIZE, MountAccess, true, "", env);
      && failure.None? && w.mounts == {} && HasFree(TableOf(w.quotas)) && w.quotas.Enabled?
      && PathOf(PLAIN, "a") in w.files
      && w.res == Resources([NewVolume(PLAIN, "a", "ephemeral-a", EPHEMERAL_SIZE, MountAccess, true, "")], [], [])
  {
    var dir, cap := PathOf(PLAIN, "a"), SizeText(EPHEMERAL_SIZE as real);
    SmallTable(map[], dir, cap);
    SuccessMeans("u", [], "");
    hide HasFree, SizeText, Adding, PathOf, Visiting, Added, Success;
    assert ChooseKind(PLAIN, [], EPHEMERAL_SIZE, "", env.order) == Chosen("");
    PutThenDrop([], VolumeID, NewVolume(PLAIN, "a", "ephemeral-a", EPHEMERAL_SIZE, MountAccess, true, ""));
    AddingSucceeds(FRESH.quotas, dir, cap, env.quota);
  }

  lemma FirstPublishes(env: Env)
    requires env == Smooth("u", [])
    ensures Publishes(PLAIN, FRESH, Publish("/t"), env)
    ensures PublishWorld(PLAIN, FRESH, Publish("/t"), env)
         == Allocate(PLAIN, FRESH, "a", "ephemeral-a", EPHEMERAL_SIZE, MountAccess, true, "", env).0
  {
    assert EphemeralName("a") == "ephemeral-a";
    FirstAllocated(env);
    hide HasFree, Allocate, Visiting;
    OnlyVolume(NewVolume(PLAIN, "a", "ephemeral-a", EPHEMERAL_SIZE, MountAccess, true, ""));
  }

  /** The first publish of an ephemeral volume "a" on the fresh node. */
  lemma FirstPublish()
    ensures var e := Event(Publish("/t"), Smooth("u", []));
      && Possible(PLAIN, FRESH, e)
      && var w := Step(PLAIN, FRESH, e);
      && w.res == Resources([Ephemeral(["/t"])], [], []) && w.file == Some(w.res) && w.clean
      && w.mounts == {"/t"} && HasFree(TableOf(w.quotas)) && w.quotas.Enabled? && PathOf(PLAIN, "a") in w.files
  {
    var e := Event(Publish("/t"), Smooth("u", []));
    RoomBelowLimit(map[]);
    FirstAllocated(e.env);
    FirstPublishes(e.env);
    SuccessMeans("u", [], "");
    hide HasFree, Allocate, PathOf, Possible, Step, Publishes, PublishWorld, RefusedWorld, IndexBy, Success;
    NextPossible(PLAIN, FRESH, e);
    PublishStep(PLAIN, FRESH, e);
    OnlyVolume(NewVolume(PLAIN, "a", "ephemeral-a", EPHEMERAL_SIZE, MountAccess, true, ""));
    assert [] + ["/t"] == ["/t"];
  }

  /** Unpublishing with a state write that fails, then restarting: the state file still records the
      target, which is mounted no more. */
  lemma RestartRecallsUnmounted() returns (es: seq<Event>)
    ensures Initial(FRESH) && PossibleRun(PLAIN, FRESH, es)
    ensures !ExclusiveWorld(Run(PLAIN, FRESH, es))
  {
    var e1 := Event(Publish("/t"), Smooth("u", []));
    var e2 := Event(NodeUnpublishCall("a", "/t"), Smooth("v", []).(written := false));
    var e3 := Event(RestartCall, Smooth("w", []));
    es := [e1, e2, e3];
    hide Possible, Step, HasFree, ExclusiveWorld;
    FirstPublish();
    var w1 := Step(PLAIN, FRESH, e1);
    NextPossible(PLAIN, w1, e2);
    UnpublishUnwritten(w1, e2);
    var w2 := Step(PLAIN, w1, e2);
    NextPossible(PLAIN, w2, e3);
    ForgottenExclusive(w2);
    RestartExclusiveIff(PLAIN, w2, e3);
    ThreeSteps(PLAIN, FRESH, e1, e2, e3);
  }

  lemma UnpublishUnwritten(w: World, e: Event)
    requires w.res == Resources([Ephemeral(["/t"])], [], []) && w.file == Some(w.res) && w.mounts == {"/t"}
    requires e == Event(NodeUnpublishCall("a", "/t"), Smooth("v", []).(written := false)) && Possible(PLAIN, w, e)
    ensures var w' := Step(PLAIN, w, e);
      w'.res == Resources([], [], []) && w'.file == w.file && w'.mounts == {} && w'.quotas == w.quotas
  {
    hide NewID, HasFree, Step;
    OnlyVolume(Ephemeral(["/t"]));
    UnpublishStep(PLAIN, w, e);
  }

  lemma ForgottenExclusive(w: World)
    requires w.res == Resources([], [], []) && w.file == Some(Resources([Ephemeral(["/t"])], [], [])) && w.mounts == {}
    ensures ExclusiveWorld(w) && RecallsUnmounted(w, Event(RestartCall, Smooth("w", [])))
  {
    assert "/t" in w.file.value.volumes[0].published;
    assert PublishedAnywhere(w.file.value.volumes, "/t");
  }

  /** An ephemeral volume published at two targets: unpublishing one forgets the volume, and the
      other stays mounted. */
  lemma MountCanBeForgotten() returns (es: seq<Event>)
    ensures Initial(FRESH) && PossibleRun(PLAIN, FRESH, es)
    ensures "/u" in Run(PLAIN, FRESH, es).mounts && Run(PLAIN, FRESH, es).res.volumes == []
  {
    var e1, e2 := Event(Publish("/t"), Smooth("u", [])), Event(Publish("/u"), Smooth("v", []));
    var e3 := Event(NodeUnpublishCall("a", "/t"), Smooth("w", []));
    es := [e1, e2, e3];
    hide Possible, Step, HasFree;
    FirstPublish();
    var w1 := Step(PLAIN, FRESH, e1);
    NextPossible(PLAIN, w1, e2);
    SecondPublish(w1, e2);
    var w2 := Step(PLAIN, w1, e2);
    NextPossible(PLAIN, w2, e3);
    FirstUnpublish(w2, e3);
    ThreeSteps(PLAIN, FRESH, e1, e2, e3);
  }

  lemma SecondPublish(w: World, e: Event)
    requires w.res == Resources([Ephemeral(["/t"])], [], []) && w.mounts == {"/t"} && PathOf(PLAIN, "a") in w.files
    requires e == Event(Publish("/u"), Smooth("v", [])) && Possible(PLAIN, w, e)
    ensures var w' := Step(PLAIN, w, e);
      && w'.res == Resources([Ephemeral(["/t", "/u"])], [], []) && w'.file == Some(w'.res)
      && w'.mounts == {"/t", "/u"} && w'.quotas == w.quotas
  {
    hide NewID, HasFree, Step;
    OnlyVolume(Ephemeral(["/t"]));
    assert EphemeralName("a") == "ephemeral-a";
    PublishStep(PLAIN, w, e);
    assert ["/t"] + ["/u"] == ["/t", "/u"];
  }

  lemma FirstUnpublish(w: World, e: Event)
    requires w.res == Resources([Ephemeral(["/t", "/u"])], [], []) && w.mounts == {"/t", "/u"}
    requires e == Event(NodeUnpublishCall("a", "/t"), Smooth("w", [])) && Possible(PLAIN, w, e)
    ensures Step(PLAIN, w, e).res.volumes == [] && "/u" in Step(PLAIN, w, e).mounts
  {
    hide NewID, HasFree, Step, Removing;
    OnlyVolume(Ephemeral(["/t", "/u"]));
    assert ["/t", "/u"][0] == "/t";
    UnpublishStep(PLAIN, w, e);
  }

  // ---------- backing files ----------

  /** The mount of a first ephemeral volume "a" fails, and its directory is removed. */
  lemma FailedPublish(e: Event)
    requires e == Event(Publish("/t"), Smooth("u", []).(mountOK := false))
    ensures Possible(PLAIN, FRESH, e)
    ensures var w := Step(PLAIN, FRESH, e);
      && |w.res.volumes| == 1 && w.res.volumes[0].id == "a" && w.res.snapshots == [] && w.res.groups == []
      && w.file == Some(w.res) && w.files == {}
      && HasFree(TableOf(w.quotas)) && PathOf(PLAIN, "a") in TableOf(w.quotas)
  {
    RoomBelowLimit(map[]);
    FailedAllocated(e.env);
    FailedMount(e.env);
    hide HasFree, Allocate, PathOf, NewID, Step, Visiting, PublishWorld, LosesDirectory, Publishes;
    NextPossible(PLAIN, FRESH, e);
    PublishStep(PLAIN, FRESH, e);
  }

  lemma FailedMount(env: Env)
    requires env == Smooth("u", []).(mountOK := false)
    ensures LosesDirectory(PLAIN, FRESH, Publish("/t"), env) && !Publishes(PLAIN, FRESH, Publish("/t"), env)
    ensures PublishWorld(PLAIN, FRESH, Publish("/t"), env)
         == Allocate(PLAIN, FRESH, "a", "ephemeral-a", EPHEMERAL_SIZE, MountAccess, true, "", env).0
  {
    assert EphemeralName("a") == "ephemeral-a";
    FailedAllocated(env);
    hide HasFree, Allocate, Visiting, PathOf;
    OnlyVolume(NewVolume(PLAIN, "a", "ephemeral-a", EPHEMERAL_SIZE, MountAccess, true, ""));
  }

  lemma FailedAllocated(env: Env)
    requires env == Smooth("u", []).(mountOK := false)
    ensures var v := NewVolume(PLAIN, "a", "ephemeral-a", EPHEMERAL_SIZE, MountAccess, true, "");
      var (w, failure) := Allocate(PLAIN, FRESH, "a", "ephemeral-a", EPHEMERAL_SIZE, MountAccess, true, "", env);
      && failure.None? && w.mounts == {} && HasFree(TableOf(w.quotas)) && PathOf(PLAIN, "a") in TableOf(w.quotas)
      && w.res == Resources([v], [], []) && w.file == Some(w.res) && w.files == {PathOf(PLAIN, "a")}
  {
    var dir, cap := PathOf(PLAIN, "a"), SizeText(EPHEMERAL_SIZE as real);
    SmallTable(map[], dir, cap);
    SuccessMeans("u", [], "");
    AddingKeys(FRESH.quotas, dir, cap, env.quota);
    hide HasFree, SizeText, Adding, PathOf, Visiting, Added, Success;
    assert ChooseKind(PLAIN, [], EPHEMERAL_SIZE, "", env.order) == Chosen("");
    PutThenDrop([], VolumeID, NewVolume(PLAIN, "a", "ephemeral-a", EPHEMERAL_SIZE, MountAccess, true, ""));
    AddingSucceeds(FRESH.quotas, dir, cap, env.quota);
  }

  /** A failed mount takes the directory of a stored volume away, and a restart then its quota. */
  lemma BackingCanBeLost() returns (e1: Event, e2: Event)
    ensures Initial(FRESH) && PossibleRun(PLAIN, FRESH, [e1, e2])
    ensures var w := Run(PLAIN, FRESH, [e1]);
      |w.res.volumes| == 1 && !Backed(DiskOf(PLAIN, w)) && TableOf(w.quotas) != map[]
    ensures var w := Run(PLAIN, FRESH, [e1, e2]); |w.res.volumes| == 1 && TableOf(w.quotas) == map[]
  {
    e1 := Event(Publish("/t"), Smooth("u", []).(mountOK := false));
    e2 := Event(RestartCall, Smooth("v", []));
    hide Possible, Step, HasFree, PathOf, Backed;
    FailedPublish(e1);
    var w1 := Step(PLAIN, FRESH, e1);
    NextPossible(PLAIN, w1, e2);
    NothingBacked(w1);
    RestartsWithoutFiles(w1, e2);
    OneStep(PLAIN, FRESH, e1);
    TwoSteps(PLAIN, FRESH, e1, e2);
  }

  lemma NothingBacked(w: World)
    requires w.res.volumes != [] && w.files == {}
    ensures !Backed(DiskOf(PLAIN, w))
  {
    hide PathOf;
    assert PathOf(PLAIN, w.res.volumes[0].id) in Paths(PLAIN, w.res.volumes);
  }

  lemma RestartsWithoutFiles(w: World, e: Event)
    requires e.call.RestartCall? && w.files == {} && w.file == Some(w.res)
    ensures Step(PLAIN, w, e).res == w.res && TableOf(Step(PLAIN, w, e).quotas) == map[]
  {
    hide Started, Mirrors;
    StartedReads(w.quotas.text, w.files - e.env.lost, e.env.quota);
  }

  /** A block file whose allocation fails half way is left behind without a volume. */
  lemma FileCanBeLeft() returns (e: Event)
    ensures Initial(FRESH) && PossibleRun(PLAIN, FRESH, [e])
    ensures Run(PLAIN, FRESH, [e]).res == EMPTY && !Housed(DiskOf(PLAIN, Run(PLAIN, FRESH, [e])))
  {
    e := Event(CreateVolumeCall("v", [Block], 5, "", NoSource), Smooth("a", []).(filesOK := false, remains := true));
    RoomBelowLimit(map[]);
    hide HasFree, PathOf, Possible, Step, Housed;
    NextPossible(PLAIN, FRESH, e);
    BlockFileLeft(e);
    OneStep(PLAIN, FRESH, e);
  }

  lemma BlockFileLeft(e: Event)
    requires e == Event(CreateVolumeCall("v", [Block], 5, "", NoSource),
                        Smooth("a", []).(filesOK := false, remains := true))
    ensures Step(PLAIN, FRESH, e).res == EMPTY && !Housed(DiskOf(PLAIN, Step(PLAIN, FRESH, e)))
  {
    hide PathOf, Step;
    CreateStep(PLAIN, FRESH, e);
    assert Block in e.call.caps && Mount !in e.call.caps;
    assert ChooseKind(PLAIN, [], 5, "", []) == Chosen("");
    assert PathOf(PLAIN, "a") in Step(PLAIN, FRESH, e).files;
  }

  /** A deletion that cannot be written to the state file leaves the volume's quota behind. */
  lemma QuotaCanBeLeft() returns (es: seq<Event>)
    ensures Initial(FRESH) && PossibleRun(PLAIN, FRESH, es)
    ensures !Covered(PLAIN, Run(PLAIN, FRESH, es))
  {
    var e1 := Event(Request("v", 5, ""), Smooth("a", []));
    var e2 := Event(DeleteVolumeCall("a"), Smooth("b", []).(written := false));
    es := [e1, e2];
    assert ChooseKind(PLAIN, [], 5, "", []) == Chosen("");
    hide Possible, Step, HasFree, SoundWorld, Covered, PathOf, SizeText, Success, Added;
    FirstStep(PLAIN, "v", 5, "", Smooth("a", []));
    FreshIsSound(PLAIN);
    StepSound(PLAIN, FRESH, e1);
    UnwrittenDeletion(Step(PLAIN, FRESH, e1), e2);
    TwoSteps(PLAIN, FRESH, e1, e2);
  }

  lemma UnwrittenDeletion(w: World, e: Event)
    requires SoundWorld(PLAIN, w) && w.res == Resources([Fresh(PLAIN, "a", "v", 5, "")], [], [])
    requires w.file == Some(w.res) && HasFree(TableOf(w.quotas))
    requires TableOf(w.quotas) == Added(map[], PathOf(PLAIN, "a"), SizeText(5 as real), true)
    requires e == Event(DeleteVolumeCall("a"), Smooth("b", []).(written := false))
    ensures Possible(PLAIN, w, e) && !Covered(PLAIN, Step(PLAIN, w, e))
  {
    hide Possible, Step, HasFree, SoundWorld, Covered, StepLeavesQuota, PathOf, SizeText, Added;
    NextPossible(PLAIN, w, e);
    FirstCovered(w);
    FirstLeaves(w, e);
    StepCoveredIff(PLAIN, w, e);
  }

  lemma FirstCovered(w: World)
    requires w.res.volumes == [Fresh(PLAIN, "a", "v", 5, "")]
    requires TableOf(w.quotas) == Added(map[], PathOf(PLAIN, "a"), SizeText(5 as real), true)
    ensures Covered(PLAIN, w)
  {
    hide PathOf, SizeText, LeastFree;
    assert PathOf(PLAIN, w.res.volumes[0].id) in Paths(PLAIN, w.res.volumes);
  }

  lemma FirstLeaves(w: World, e: Event)
    requires w.res.volumes == [Fresh(PLAIN, "a", "v", 5, "")]
    requires TableOf(w.quotas) == Added(map[], PathOf(PLAIN, "a"), SizeText(5 as real), true)
    requires e == Event(DeleteVolumeCall("a"), Smooth("b", []).(written := false))
    ensures StepLeavesQuota(PLAIN, w, e)
  {
    hide PathOf, SizeText, LeastFree;
    OnlyVolume(Fresh(PLAIN, "a", "v", 5, ""));
  }

  /** A creation that cannot be written fails; repeating it succeeds by name, and the volume has no quota. */
  lemma QuotaCanBeMissing() returns (e1: Event, e2: Event)
    ensures Initial(FRESH) && PossibleRun(PLAIN, FRESH, [e1, e2])
    ensures e2.call == e1.call && StepReply(PLAIN, Step(PLAIN, FRESH, e1), e2).1 == VolumeIs("a", 5)
    ensures !Quotaed(PLAIN, Run(PLAIN, FRESH, [e1, e2]))
  {
    e1 := Event(Request("v", 5, ""), Smooth("a", []).(written := false));
    e2 := Event(Request("v", 5, ""), Smooth("b", []));
    RoomBelowLimit(map[]);
    hide Possible, Step, HasFree, PathOf, SizeText, Success, Quotaed;
    UnwrittenCreation(e1);
    RepeatedCreation(Step(PLAIN, FRESH, e1), e2);
    TwoSteps(PLAIN, FRESH, e1, e2);
  }

  lemma UnwrittenCreation(e: Event)
    requires e == Event(Request("v", 5, ""), Smooth("a", []).(written := false)) && HasFree(map[])
    ensures Possible(PLAIN, FRESH, e)
    ensures var w := Step(PLAIN, FRESH, e);
      && w.res == Resources([Fresh(PLAIN, "a", "v", 5, "")], [], []) && w.file.None?
      && HasFree(TableOf(w.quotas)) && TableOf(w.quotas) == map[]
  {
    hide HasFree, PathOf, SizeText, Step, Adding;
    assert ChooseKind(PLAIN, [], 5, "", []) == Chosen("");
    NextPossible(PLAIN, FRESH, e);
    CreateStep(PLAIN, FRESH, e);
    PutThenDrop([], VolumeID, Fresh(PLAIN, "a", "v", 5, ""));
  }

  lemma RepeatedCreation(w: World, e: Event)
    requires w.res == Resources([Fresh(PLAIN, "a", "v", 5, "")], [], []) && w.file.None?
    requires HasFree(TableOf(w.quotas)) && TableOf(w.quotas) == map[]
    requires e == Event(Request("v", 5, ""), Smooth("b", []))
    ensures Possible(PLAIN, w, e) && StepReply(PLAIN, w, e).1 == VolumeIs("a", 5)
    ensures !Quotaed(PLAIN, Step(PLAIN, w, e))
  {
    hide HasFree, PathOf;
    NextPossible(PLAIN, w, e);
    OnlyVolume(Fresh(PLAIN, "a", "v", 5, ""));
    assert Step(PLAIN, w, e) == w;
    assert PathOf(PLAIN, w.res.volumes[0].id) in Paths(PLAIN, w.res.volumes);
  }

  /** A snapshot whose deletion cannot be written comes back with a restart, ready and without an archive. */
  lemma ArchiveCanBeLost() returns (es: seq<Event>)
    ensures Initial(FRESH) && PossibleRun(PLAIN, FRESH, es)
    ensures var w := Run(PLAIN, FRESH, es);
      |w.res.snapshots| == 1 && w.res.snapshots[0].ready && !Archived(DiskOf(PLAIN, w))
  {
    var e1 := Event(Request("v", 5, ""), Smooth("a", []));
    var e2 := Event(CreateSnapshotCall("s", "a"), Smooth("b", []));
    var e3 := Event(DeleteSnapshotCall("b"), Smooth("c", []).(written := false));
    var e4 := Event(RestartCall, Smooth("d", []));
    es := [e1, e2, e3, e4];
    assert ChooseKind(PLAIN, [], 5, "", []) == Chosen("");
    hide Possible, Step, HasFree, PathOf, SizeText, Archived, OneSnapshot, Success;
    FirstStep(PLAIN, "v", 5, "", Smooth("a", []));
    var w1 := Step(PLAIN, FRESH, e1);
    SnapshotMade(w1, e2);
    var w2 := Step(PLAIN, w1, e2);
    SnapshotForgotten(w2, e3);
    var w3 := Step(PLAIN, w2, e3);
    SnapshotRecalled(w3, e4);
    ThreeSteps(PLAIN, w1, e2, e3, e4);
    RunNext(PLAIN, FRESH, e1, [e2, e3, e4]);
    assert [e1] + [e2, e3, e4] == [e1, e2, e3, e4];
  }

  function TheSnapshot(): Snapshot {
    Snapshot("s", "b", "a", SnapshotPathOf(PLAIN, "b"), 0, 5, true, "")
  }

  /** One volume and one snapshot of it. */
  ghost predicate OneSnapshot(r: Resources) {
    r == Resources([Fresh(PLAIN, "a", "v", 5, "")], [TheSnapshot()], [])
  }

  lemma SnapshotMade(w: World, e: Event)
    requires w.res == Resources([Fresh(PLAIN, "a", "v", 5, "")], [], []) && HasFree(TableOf(w.quotas))
    requires w.file == Some(w.res) && e == Event(CreateSnapshotCall("s", "a"), Smooth("b", []))
    ensures Possible(PLAIN, w, e)
    ensures var w' := Step(PLAIN, w, e);
      OneSnapshot(w'.res) && w'.file == Some(w'.res) && HasFree(TableOf(w'.quotas))
  {
    hide HasFree, PathOf;
    OnlyVolume(Fresh(PLAIN, "a", "v", 5, ""));
    PutThenDrop([], SnapshotID, TheSnapshot());
    assert [] + [TheSnapshot()] == [TheSnapshot()];
  }

  lemma SnapshotForgotten(w: World, e: Event)
    requires OneSnapshot(w.res) && w.file == Some(w.res) && HasFree(TableOf(w.quotas))
    requires e == Event(DeleteSnapshotCall("b"), Smooth("c", []).(written := false))
    ensures Possible(PLAIN, w, e)
    ensures var w' := Step(PLAIN, w, e);
      && w'.res == Resources([Fresh(PLAIN, "a", "v", 5, "")], [], []) && w'.file == w.file
      && SnapshotPathOf(PLAIN, "b") !in w'.files && HasFree(TableOf(w'.quotas))
  {
    hide HasFree, PathOf;
    PutThenDrop([], SnapshotID, TheSnapshot());
    assert [] + [TheSnapshot()] == [TheSnapshot()];
  }

  lemma SnapshotRecalled(w: World, e: Event)
    requires w.res == Resources([Fresh(PLAIN, "a", "v", 5, "")], [], []) && w.file.Some? && OneSnapshot(w.file.value)
    requires SnapshotPathOf(PLAIN, "b") !in w.files && HasFree(TableOf(w.quotas))
    requires e == Event(RestartCall, Smooth("d", []))
    ensures Possible(PLAIN, w, e)
    ensures var w' := Step(PLAIN, w, e);
      |w'.res.snapshots| == 1 && w'.res.snapshots[0].ready && !Archived(DiskOf(PLAIN, w'))
  {
    hide HasFree, PathOf, Started;
    var ss := w.file.value.snapshots;
    assert PathOf(PLAIN, ArchiveID(ss[0])) in Archives(PLAIN, ss);
  }

  // ---------- caps ----------

  lemma FiveIsNotTen()
    ensures AmountOf(5 as real) != AmountOf(10 as real) || UnitOf(5 as real) != UnitOf(10 as real)
  {
    RoundsDown(5 as real);
    RoundsDown(10 as real);
    assert UnitOf(5 as real) == 0 && UnitOf(10 as real) == 0;
  }

  /** An expansion in the controller leaves the cap at the old size. */
  lemma CapCanBeBehind() returns (es: seq<Event>)
    ensures Initial(FRESH) && PossibleRun(PLAIN, FRESH, es)
    ensures var w := Run(PLAIN, FRESH, es);
      Find(w.res.volumes, VolumeID, "a").Some? && PathOf(PLAIN, "a") in TableOf(w.quotas) && !CapCurrent(PLAIN, w, "a")
  {
    var e1 := Event(Request("v", 5, ""), Smooth("a", []));
    var e2 := Event(ControllerExpandCall("a", Some(10)), Smooth("b", []));
    es := [e1, e2];
    assert ChooseKind(PLAIN, [], 5, "", []) == Chosen("");
    hide Possible, Step, HasFree, PathOf, SizeText, CapCurrent;
    FirstStep(PLAIN, "v", 5, "", Smooth("a", []));
    var w1 := Step(PLAIN, FRESH, e1);
    NextPossible(PLAIN, w1, e2);
    ExpandedBehind(w1, e2);
    TwoSteps(PLAIN, FRESH, e1, e2);
  }

  lemma ExpandedBehind(w: World, e: Event)
    requires w.res.volumes == [Fresh(PLAIN, "a", "v", 5, "")]
    requires TableOf(w.quotas) == Added(map[], PathOf(PLAIN, "a"), SizeText(5 as real), true)
    requires e.call == ControllerExpandCall("a", Some(10))
    ensures var w' := Step(PLAIN, w, e);
      && Find(w'.res.volumes, VolumeID, "a").Some? && PathOf(PLAIN, "a") in TableOf(w'.quotas)
      && !CapCurrent(PLAIN, w', "a")
  {
    hide HasFree, PathOf, SizeText, LeastFree, AmountOf, UnitOf;
    OnlyVolume(Fresh(PLAIN, "a", "v", 5, ""));
    FiveIsNotTen();
    ExpandLeavesCapIff(PLAIN, w, "a", 10, e.env);
  }

  // ---------- capacity ----------

  lemma FirstKind()
    ensures ChooseKind(TRACKED, [], 10, "fast", ["fast"]) == Chosen("fast")
  {
    assert SumBy([], KindSize("fast")) == 0;
    assert CapacityOf(TRACKED, "fast") == 10;
  }

  /** An expansion within the volume limit overdraws the kind. */
  lemma CapacityCanBeOverdrawn() returns (es: seq<Event>)
    ensures Initial(FRESH) && Sane(TRACKED) && PossibleRun(TRACKED, FRESH, es)
    ensures !Within(TRACKED, Run(TRACKED, FRESH, es).res.volumes)
  {
    var e1 := Event(Request("v", 10, "fast"), Smooth("a", ["fast"]));
    var e2 := Event(ControllerExpandCall("a", Some(20)), Smooth("b", ["fast"]));
    es := [e1, e2];
    hide Possible, Step, Within, HasFree, Added, PathOf, SizeText;
    FirstKind();
    FirstStep(TRACKED, "v", 10, "fast", Smooth("a", ["fast"]));
    var w1 := Step(TRACKED, FRESH, e1);
    NextPossible(TRACKED, w1, e2);
    FirstOverdrawn(w1, e2);
    TwoSteps(TRACKED, FRESH, e1, e2);
  }

  lemma FirstOverdrawn(w: World, e: Event)
    requires w.res.volumes == [Fresh(TRACKED, "a", "v", 10, "fast")]
    requires e.call == ControllerExpandCall("a", Some(20)) && Possible(TRACKED, w, e)
    ensures !Within(TRACKED, Step(TRACKED, w, e).res.volumes)
  {
    OnlyVolume(Fresh(TRACKED, "a", "v", 10, "fast"));
    FirstSum(Fresh(TRACKED, "a", "v", 10, "fast"));
    ExpandWithinIff(TRACKED, w, "a", 20, e.env);
  }

  lemma FirstSum(v: Volume)
    ensures forall k :: KindSum([v], k) == if v.kind == k then v.size else 0
  {
    forall k ensures KindSum([v], k) == if v.kind == k then v.size else 0 {
      SumAppend([], KindSize(k), v);
      assert [] + [v] == [v];
    }
  }

  // ---------- members of a group ----------

  /** Deleting a member of a complete group is not refused; from then on the group, still stored,
      can neither be created again nor read. */
  lemma DeletedMemberBreaksGroup(cfg: Config, w: World, g: Group, id: string, env: Env, sources: seq<string>,
                                 ids: seq<string>, later: Env)
    requires SoundWorld(cfg, w) && Complete(w, g) && id in g.snapshotIDs && id != "" && g.id != "" && g.name != ""
    requires !cfg.ephemeral && env.written && sources != [] && |sources| <= |later.memberIDs|
    ensures var (w', reply) := DeleteSnapshot(cfg, w, id, env);
      && reply == Done && Find(w'.res.groups, GroupID, g.id).Some?
      && !CreateGroup(cfg, w', g.name, sources, later).1.GroupIs?
      && !GetGroup(cfg, w', g.id, ids).1.GroupIs?
  {
    hide Sound;
    var w' := DeleteSnapshot(cfg, w, id, env).0;
    var k := IndexBy(w.res.groups, GroupID, g.id);
    var f := w.res.groups[k];
    ListedUpToOrder(g, f);
    RemoveSnapshotSound(cfg, w, id, Outcome(env.removals, 0), env.written);
    SoundMeansUnique(cfg, w);
    FindDropped(w.res.snapshots, SnapshotID, id);
    var j :| 0 <= j < |f.snapshotIDs| && f.snapshotIDs[j] == id;
    assert Find(w'.res.snapshots, SnapshotID, f.snapshotIDs[j]).None?;
    FirstOfName(cfg, w', g);
    GroupAnswersIff(cfg, w', g.name, sources, later);
    GetAnswersIff(cfg, w', g.id, ids);
  }

  lemma GroupMade(e1: Event, e2: Event)
    requires e1 == Event(Request("v", 5, ""), Smooth("a", []))
    requires e2 == Event(CreateGroupCall("g", ["a"]), Smooth("g1", []).(memberIDs := ["m"]))
    ensures Possible(PLAIN, FRESH, e1) && Possible(PLAIN, Step(PLAIN, FRESH, e1), e2)
    ensures var w := Step(PLAIN, Step(PLAIN, FRESH, e1), e2);
      SoundWorld(PLAIN, w) && Complete(w, MadeGroup(e2)) && GroupAlone(w)
  {
    assert ChooseKind(PLAIN, [], 5, "", []) == Chosen("");
    hide Possible, Step, StepReply, HasFree, SoundWorld, Complete, Success;
    FirstStep(PLAIN, "v", 5, "", Smooth("a", []));
    FreshIsSound(PLAIN);
    StepSound(PLAIN, FRESH, e1);
    FirstGroup(Step(PLAIN, FRESH, e1), e2);
    CreatedComplete(PLAIN, Step(PLAIN, FRESH, e1), e2);
    StepSound(PLAIN, Step(PLAIN, FRESH, e1), e2);
  }

  /** One volume, one snapshot and one group. */
  ghost predicate GroupAlone(w: World) {
    && |w.res.volumes| == 1 && w.res.volumes[0].id == "a" && |w.res.snapshots| == 1 && w.res.snapshots[0].id == "m"
    && |w.res.groups| == 1 && w.res.groups[0].id == "g1" && w.res.groups[0].snapshotIDs == ["m"]
    && w.file == Some(w.res) && HasFree(TableOf(w.quotas))
  }

  /** A request for the group that was made is not answered, whatever the environment does. */
  ghost predicate NoAnswer(w: World) {
    forall later: Env :: |later.memberIDs| >= 1 ==> !CreateGroup(PLAIN, w, "g", ["a"], later).1.GroupIs?
  }

  lemma MemberDeleted(w: World, e: Event, g: Group)
    requires SoundWorld(PLAIN, w) && Complete(w, g) && GroupAlone(w)
    requires g.snapshotIDs == ["m"] && g.id == "g1" && g.name == "g"
    requires e == Event(DeleteSnapshotCall("m"), Smooth("c", []))
    ensures Possible(PLAIN, w, e)
    ensures Find(Step(PLAIN, w, e).res.groups, GroupID, "g1").Some? && NoAnswer(Step(PLAIN, w, e))
  {
    hide HasFree, SoundWorld, Complete, DeleteSnapshot, CreateGroup, GetGroup, Visiting;
    assert g.snapshotIDs[0] == "m";
    DeletedMemberBreaksGroup(PLAIN, w, g, "m", e.env, ["a"], [], e.env.(memberIDs := ["n"]));
    forall later: Env | |later.memberIDs| >= 1
      ensures !CreateGroup(PLAIN, Step(PLAIN, w, e), "g", ["a"], later).1.GroupIs?
    {
      DeletedMemberBreaksGroup(PLAIN, w, g, "m", e.env, ["a"], [], later);
    }
  }

  /** Such a run: a volume, a group snapshot of it, and the deletion of its one member. */
  lemma GroupCanStopAnswering() returns (es: seq<Event>)
    ensures Initial(FRESH) && PossibleRun(PLAIN, FRESH, es)
    ensures Find(Run(PLAIN, FRESH, es).res.groups, GroupID, "g1").Some? && NoAnswer(Run(PLAIN, FRESH, es))
  {
    var e1 := Event(Request("v", 5, ""), Smooth("a", []));
    var e2 := Event(CreateGroupCall("g", ["a"]), Smooth("g1", []).(memberIDs := ["m"]));
    var e3 := Event(DeleteSnapshotCall("m"), Smooth("c", []));
    es := [e1, e2, e3];
    hide Possible, Step, HasFree, SoundWorld, Complete, GroupAlone, NoAnswer, Visiting;
    GroupMade(e1, e2);
    MemberDeleted(Step(PLAIN, Step(PLAIN, FRESH, e1), e2), e3, MadeGroup(e2));
    ThreeSteps(PLAIN, FRESH, e1, e2, e3);
  }

  lemma FirstGroup(w: World, e: Event)
    requires w.res == Resources([Fresh(PLAIN, "a", "v", 5, "")], [], []) && w.file == Some(w.res)
    requires HasFree(TableOf(w.quotas))
    requires e == Event(CreateGroupCall("g", ["a"]), Smooth("g1", []).(memberIDs := ["m"]))
    ensures Possible(PLAIN, w, e) && Find(w.res.groups, GroupName, "g").None?
    ensures StepReply(PLAIN, w, e).1.GroupIs?
    ensures GroupAlone(Step(PLAIN, w, e))
  {
    hide HasFree;
    OnlyVolume(Fresh(PLAIN, "a", "v", 5, ""));
    var w1 := AddMember(PLAIN, w, "g", "a", 0, e.env).0;
    assert AddMembers(PLAIN, w1, "g", ["a"], 1, e.env) == (w1, None);
    assert AddMembers(PLAIN, w, "g", ["a"], 0, e.env) == (w1, None);
    assert e.env.memberIDs[..1] == ["m"];
  }

  // ---------- project IDs ----------

  /** A restart from a file in which a directory is printed first gives it ID 0. */
  lemma FirstReadsAsZero(q: Quotas, order: seq<string>, existing: set<string>, o: Outcomes)
    requires q.Enabled? && IsOrder(order, q.table) && q.text == Print(order, q.table) && AllPlain(q.table)
    requires order != [] && order[0] in existing && QuotasSucceed(o)
    ensures var q' := Started(q.text, existing, o);
      && q'.Enabled? && q'.table == Existing(Reloaded(order, q.table), existing) && AllPlain(q'.table)
      && order[0] in q'.table && q'.table[order[0]].id == 0 && q'.text == Print(o.visit(q'.table), q'.table)
  {
    hide Started, Plain, Parse, Print;
    StartedReads(q.text, existing, o);
    StartSucceeds(q.text, existing, o);
    ReadBack(order, q.table, existing);
    assert order[0] in order;
  }

  /** Two restarts that find different directories printed first give both of them ID 0. */
  lemma TwoRestartsShareID(q: Quotas, order: seq<string>, existing: set<string>, o1: Outcomes, o2: Outcomes, b: string)
    requires q.Enabled? && IsOrder(order, q.table) && q.text == Print(order, q.table) && AllPlain(q.table)
    requires order != [] && order[0] in existing && QuotasSucceed(o1) && QuotasSucceed(o2)
    requires b in q.table && b in existing && b != order[0]
    requires forall ds :: b in ds ==> o1.visit(ds) != [] && o1.visit(ds)[0] == b
    ensures !SoundIDs(TableOf(Started(Started(q.text, existing, o1).text, existing, o2)))
  {
    hide Started, AllPlain, Print, QuotasSucceed;
    var q1 := Started(q.text, existing, o1);
    FirstReadsAsZero(q, order, existing, o1);
    assert b in q1.table;
    FirstReadsAsZero(q1, o1.visit(q1.table), existing, o2);
    var q2 := Started(q1.text, existing, o2);
    assert q2.table[order[0]].id == 0 && q2.table[b].id == 0;
  }

  lemma RestartsOnly(cfg: Config, w: World, e: Event)
    requires Possible(cfg, w, e) && e.call.RestartCall? && e.env.lost == {} && w.file.Some?
    ensures var w' := Step(cfg, w, e);
      && w'.res == w.file.value && w'.file == w.file && w'.files == w.files
      && w'.quotas == Started(w.quotas.text, w.files, e.env.quota)
  {
    hide NewID, HasFree, Started;
    assert w.files - {} == w.files;
  }

  lemma FewDirectories(text: string, a: string, b: string, o: Outcomes)
    ensures HasFree(TableOf(Started(text, {a, b}, o)))
  {
    hide Started, HasFree, Mirrors;
    var q := Started(text, {a, b}, o);
    StartedReads(text, {a, b}, o);
    SubsetSize(TableOf(q).Keys, {a, b});
    assert |TableOf(q)| == |TableOf(q).Keys|;
    RoomBelowLimit(TableOf(q));
  }

  /** Two volumes have been created, and the first one's directory is printed first. */
  ghost predicate TwoQuotas(w: World, a: string, b: string) {
    && w.res == Resources([Fresh(PLAIN, "a", "v", 5, ""), Fresh(PLAIN, "b", "w", 5, "")], [], [])
    && w.file == Some(w.res) && w.files == {a, b}
    && w.quotas.Enabled? && a in w.quotas.table && b in w.quotas.table && AllPlain(w.quotas.table)
    && w.quotas.text == Print(Visiting(a)(w.quotas.table), w.quotas.table)
  }

  lemma TwoEntries(a: string, b: string, cap: string)
    requires Plain(a, cap) && Plain(b, cap)
    ensures var t1 := Added(map[], a, cap, true);
      var t2 := Added(t1, b, cap, true);
      && HasFree(t2) && a in t2 && b in t2 && AllPlain(t2)
  {
    hide Plain, LeastFree;
    SmallTable(map[], a, cap);
    SmallTable(Added(map[], a, cap, true), b, cap);
  }

  /** Only the first volume "a" is there. */
  ghost predicate OneQuota(w: World) {
    && w.res == Resources([Fresh(PLAIN, "a", "v", 5, "")], [], []) && w.file == Some(w.res)
    && w.files == {PathOf(PLAIN, "a")} && w.quotas.Enabled? && HasFree(w.quotas.table)
    && w.quotas.table == Added(map[], PathOf(PLAIN, "a"), SizeText(5 as real), true)
  }

  lemma SecondQuota(w: World, o: Outcomes)
    requires OneQuota(w) && QuotasSucceed(o) && o.visit == Visiting(PathOf(PLAIN, "a"))
    ensures var q := Adding(w.quotas, PathOf(PLAIN, "b"), SizeText(5 as real), o);
      && q.Enabled? && HasFree(q.table) && PathOf(PLAIN, "a") in q.table && PathOf(PLAIN, "b") in q.table
      && AllPlain(q.table) && q.text == Print(Visiting(PathOf(PLAIN, "a"))(q.table), q.table)
  {
    var pa, pb, cap := PathOf(PLAIN, "a"), PathOf(PLAIN, "b"), SizeText(5 as real);
    assert PlainText(pa) && PlainText(pb);
    hide HasFree, SizeText, PathOf, Print, Plain, AllPlain, PlainText, Added, Adding, Visiting, QuotasSucceed;
    CapsArePlain(pa, 5 as real);
    CapsArePlain(pb, 5 as real);
    TwoEntries(pa, pb, cap);
    AddingSucceeds(w.quotas, pb, cap, o);
  }

  lemma SecondPossible(w: World, e: Event)
    requires e == Event(Request("w", 5, ""), Success("b", [], PathOf(PLAIN, "a"))) && OneQuota(w)
    ensures Possible(PLAIN, w, e)
  {
    SuccessMeans("b", [], PathOf(PLAIN, "a"));
    hide HasFree, SizeText, PathOf, Possible, Added, Success, Visiting, QuotasSucceed;
    NextPossible(PLAIN, w, e);
  }

  lemma SecondVolume(w: World, e: Event)
    requires e == Event(Request("w", 5, ""), Success("b", [], PathOf(PLAIN, "a"))) && OneQuota(w)
    ensures HasFree(TableOf(Step(PLAIN, w, e).quotas))
    ensures TwoQuotas(Step(PLAIN, w, e), PathOf(PLAIN, "a"), PathOf(PLAIN, "b"))
  {
    SuccessMeans("b", [], PathOf(PLAIN, "a"));
    SecondQuota(w, e.env.quota);
    SecondStored(w, e);
    hide HasFree, SizeText, PathOf, Step, Print, AllPlain, Added, Adding, Success, Visiting, QuotasSucceed;
  }

  lemma SecondStored(w: World, e: Event)
    requires OneQuota(w) && e.call == Request("w", 5, "")
    requires e.env.uuid == "b" && e.env.order == [] && e.env.filesOK && e.env.written
    ensures var v, u, w' := Fresh(PLAIN, "a", "v", 5, ""), Fresh(PLAIN, "b", "w", 5, ""), Step(PLAIN, w, e);
      && w'.res == Resources([v, u], [], []) && w'.file == Some(w'.res)
      && w'.files == {PathOf(PLAIN, "a"), PathOf(PLAIN, "b")}
      && w'.quotas == Adding(w.quotas, PathOf(PLAIN, "b"), SizeText(5 as real), e.env.quota)
  {
    var v, u := Fresh(PLAIN, "a", "v", 5, ""), Fresh(PLAIN, "b", "w", 5, "");
    OnlyVolume(v);
    assert Find(w.res.volumes, VolumeName, "w").None?;
    assert [v] + [u] == [v, u];
    hide HasFree, SizeText, PathOf, Step, Added, Adding, IndexBy;
    Created(PLAIN, w, "w", 5, "", e.env);
  }

  /** Two restarts after that are possible and only exchange the quota table. */
  lemma RestartsPossible(w: World, e3: Event, e4: Event)
    requires TwoQuotas(w, PathOf(PLAIN, "a"), PathOf(PLAIN, "b")) && HasFree(TableOf(w.quotas))
    requires e3.call.RestartCall? && e3.env.uuid == "c" && e3.env.memberIDs == []
    requires e3.env.order == [] && e3.env.lost == {}
    requires e4.call.RestartCall? && e4.env.uuid == "d" && e4.env.memberIDs == []
    requires e4.env.order == [] && e4.env.lost == {}
    ensures Possible(PLAIN, w, e3) && Possible(PLAIN, Step(PLAIN, w, e3), e4)
    ensures Step(PLAIN, Step(PLAIN, w, e3), e4).quotas ==
      Started(Started(w.quotas.text, w.files, e3.env.quota).text, w.files, e4.env.quota)
  {
    var pa, pb := PathOf(PLAIN, "a"), PathOf(PLAIN, "b");
    hide Possible, Step, HasFree, PathOf, Started, Print, AllPlain;
    NextPossible(PLAIN, w, e3);
    RestartsOnly(PLAIN, w, e3);
    FewDirectories(w.quotas.text, pa, pb, e3.env.quota);
    NextPossible(PLAIN, Step(PLAIN, w, e3), e4);
    RestartsOnly(PLAIN, Step(PLAIN, w, e3), e4);
  }

  /** The first restart prints the other directory first, so both read as 0 in turn. */
  lemma ThenTwoRestarts(w: World, e3: Event, e4: Event)
    requires TwoQuotas(w, PathOf(PLAIN, "a"), PathOf(PLAIN, "b")) && HasFree(TableOf(w.quotas))
    requires e3 == Event(RestartCall, Success("c", [], PathOf(PLAIN, "b"))) && e4 == Event(RestartCall, Smooth("d", []))
    ensures Possible(PLAIN, w, e3) && Possible(PLAIN, Step(PLAIN, w, e3), e4)
    ensures !SoundIDs(TableOf(Step(PLAIN, Step(PLAIN, w, e3), e4).quotas))
  {
    var pa, pb := PathOf(PLAIN, "a"), PathOf(PLAIN, "b");
    PathTellsID(PLAIN, "a", "b");
    SuccessMeans("c", [], pb);
    SuccessMeans("d", [], "");
    FirstPrinted(w.quotas.table, pa);
    hide Possible, Step, HasFree, SoundIDs, PathOf, Started, Print, AllPlain, Success, IsOrder, QuotasSucceed;
    RestartsPossible(w, e3, e4);
    TwoRestartsShareID(w.quotas, Visiting(pa)(w.quotas.table), {pa, pb}, e3.env.quota, e4.env.quota, pb);
  }

  lemma FirstPrinted(ds: Directories, d: string)
    requires d in ds
    ensures IsOrder(Visiting(d)(ds), ds) && Visiting(d)(ds) != [] && Visiting(d)(ds)[0] == d
  {
  }

  lemma FirstQuota(e: Event)
    requires e == Event(Request("v", 5, ""), Smooth("a", []))
    ensures Possible(PLAIN, FRESH, e) && OneQuota(Step(PLAIN, FRESH, e))
  {
    assert ChooseKind(PLAIN, [], 5, "", []) == Chosen("");
    hide Possible, Step, HasFree, PathOf, Success, Added, SizeText;
    FirstStep(PLAIN, "v", 5, "", Smooth("a", []));
  }

  lemma SharedAfter(e1: Event, e2: Event, e3: Event, e4: Event)
    requires e1 == Event(Request("v", 5, ""), Smooth("a", []))
    requires e2 == Event(Request("w", 5, ""), Success("b", [], PathOf(PLAIN, "a")))
    requires e3 == Event(RestartCall, Success("c", [], PathOf(PLAIN, "b"))) && e4 == Event(RestartCall, Smooth("d", []))
    ensures PossibleRun(PLAIN, FRESH, [e1, e2, e3, e4])
    ensures !SoundIDs(TableOf(Run(PLAIN, FRESH, [e1, e2, e3, e4]).quotas))
  {
    hide Possible, Step, HasFree, SoundIDs, PathOf, OneQuota, TwoQuotas, Success;
    FirstQuota(e1);
    SecondPossible(Step(PLAIN, FRESH, e1), e2);
    SecondVolume(Step(PLAIN, FRESH, e1), e2);
    ThenTwoRestarts(Step(PLAIN, Step(PLAIN, FRESH, e1), e2), e3, e4);
    ThreeSteps(PLAIN, Step(PLAIN, FRESH, e1), e2, e3, e4);
    RunNext(PLAIN, FRESH, e1, [e2, e3, e4]);
    assert [e1] + [e2, e3, e4] == [e1, e2, e3, e4];
  }

  /** Two volumes and two restarts: nothing fails, and the two quotas end up with one project ID. */
  lemma ProjectIDCanBeShared() returns (es: seq<Event>)
    ensures Initial(FRESH) && PossibleRun(PLAIN, FRESH, es) && |es| == 4
    ensures !SoundIDs(TableOf(Run(PLAIN, FRESH, es).quotas))
  {
    var e1 := Event(Request("v", 5, ""), Smooth("a", []));
    var e2 := Event(Request("w", 5, ""), Success("b", [], PathOf(PLAIN, "a")));
    var e3 := Event(RestartCall, Success("c", [], PathOf(PLAIN, "b")));
    var e4 := Event(RestartCall, Smooth("d", []));
    es := [e1, e2, e3, e4];
    hide PossibleRun, Run, SoundIDs, Success, Smooth, PathOf;
    SharedAfter(e1, e2, e3, e4);
  }
}
