// The cap of a directory is the size its volume had at creation or at the last expansion on the
// node, rounded down to a unit. An expansion in the controller does not reach it.
module QuotaCaps {
  import opened Base
  import opened Lists
  import opened State
  import opened ProjectIDs
  import opened ProjectsFile
  import opened Quota
  import opened Sizes
  import opened Driver
  import opened Effects
  import opened QuotaFile

  // ---------- what a call asks for ----------

  /** The size for which the call sets the quota of its volume's directory, if it does. */
  ghost function AskedSize(cfg: Config, w: World, e: Event): Option<int64> {
    match e.call
    case CreateVolumeCall(_, _, size, kind, _) =>
      if Creates(cfg, w, e.call) && Stores(cfg, w, size, kind, e.env) && e.env.written then Some(size) else None
    case NodePublishCall(_, _, _, _, _, _, kind) =>
      if NeedsVolume(cfg, w, e.call) && Stores(cfg, w, EPHEMERAL_SIZE, kind, e.env) && e.env.written
      then Some(EPHEMERAL_SIZE) else None
    case NodeExpandCall(id, path, capRange) =>
      if ExpandsQuota(cfg, w, e.call, e.env) then capRange else None
    case _ => None
  }

  /** The checks of an expansion on the node. */
  ghost predicate ExpandsQuota(cfg: Config, w: World, c: Call, env: Env)
    requires c.NodeExpandCall?
  {
    var v := Find(w.res.volumes, VolumeID, c.id);
    && cfg.enableVolumeExpansion && c.id != "" && v.Some? && c.path != ""
    && c.capRange.Some? && c.capRange.value <= cfg.maxExpansionSizeNode
    && (env.pathKind == if v.value.access == MountAccess then Directory else Device)
  }

  /** The size last asked of a directory, after the step. */
  ghost function NowAsked(cfg: Config, w: World, e: Event, dir: string, before: Option<int64>): Option<int64> {
    if dir == PathOf(cfg, QuotaID(e)) && AskedSize(cfg, w, e).Some? then AskedSize(cfg, w, e) else before
  }

  ghost function LastAsked(cfg: Config, w: World, es: seq<Event>, dir: string, before: Option<int64>): Option<int64>
    decreases |es|
  {
    if es == [] then before
    else LastAsked(cfg, Step(cfg, w, es[0]), es[1..], dir, NowAsked(cfg, w, es[0], dir, before))
  }

  // ---------- table operations ----------

  lemma AddingCap(q: Quotas, dir: string, cap: string, o: Outcomes, d: string)
    requires d in TableOf(Adding(q, dir, cap, o))
    ensures var ds, ds' := TableOf(q), TableOf(Adding(q, dir, cap, o));
      if d == dir then ds'[d].cap == cap else d in ds && ds'[d] == ds[d]
  {
    hide IsOrder, LeastFree;
  }

  lemma RemovingCap(q: Quotas, dir: string, o: Outcomes, d: string)
    requires d in TableOf(Removing(q, dir, o))
    ensures d != dir && d in TableOf(q) && TableOf(Removing(q, dir, o))[d] == TableOf(q)[d]
  {
    hide IsOrder;
  }

  lemma ResizingCap(q: Quotas, dir: string, cap: string, o: Outcomes, d: string)
    requires d in TableOf(Resizing(q, dir, cap, o).0)
    ensures var ds, ds' := TableOf(q), TableOf(Resizing(q, dir, cap, o).0);
      d in ds && if d == dir then ds'[d].cap == cap else ds'[d] == ds[d]
  {
    hide IsOrder;
  }

  // ---------- steps ----------

  ghost predicate CapIs(q: Quotas, dir: string, asked: Option<int64>) {
    dir in TableOf(q) ==> asked.Some? && TableOf(q)[dir].cap == SizeText(asked.value as real)
  }

  lemma RemovingKeepsCap(q: Quotas, other: string, o: Outcomes, dir: string, asked: Option<int64>)
    requires CapIs(q, dir, asked)
    ensures CapIs(Removing(q, other, o), dir, asked)
  {
    hide Removing, SizeText;
    if dir in TableOf(Removing(q, other, o)) {
      RemovingCap(q, other, o, dir);
    }
  }

  lemma AddingSetsCap(q: Quotas, other: string, size: int64, o: Outcomes, dir: string, asked: Option<int64>)
    requires (dir != other ==> CapIs(q, dir, asked))
    ensures CapIs(Adding(q, other, SizeText(size as real), o), dir, if dir == other then Some(size) else asked)
  {
    hide Adding, SizeText;
    if dir in TableOf(Adding(q, other, SizeText(size as real), o)) {
      AddingCap(q, other, SizeText(size as real), o, dir);
    }
  }

  lemma CreateCaps(cfg: Config, w: World, e: Event, dir: string, before: Option<int64>)
    requires e.call.CreateVolumeCall? && CapIs(w.quotas, dir, before)
    ensures CapIs(Step(cfg, w, e).quotas, dir, NowAsked(cfg, w, e, dir, before))
  {
    hide CapIs, Step, Allocate, Release, Creates, Stores, PathOf, LoadContent;
    var c, env, now := e.call, e.env, NowAsked(cfg, w, e, dir, before);
    var w1, own := CreatedWorld(cfg, w, c, env).0, PathOf(cfg, env.uuid);
    CreateStep(cfg, w, e);
    AllocateQuota(cfg, w, env.uuid, c.name, c.size, RequestedAccess(c.caps), false, c.kind, env);
    ReleaseQuota(cfg, w1, env.uuid, env.writtenAgain, env);
    AddingSetsCap(w.quotas, own, c.size, env.quota, dir, before);
    if Creates(cfg, w, c) {
      assert CapIs(w1.quotas, dir, now);
      RemovingKeepsCap(w1.quotas, own, env.quota, dir, now);
    }
  }

  lemma PublishCaps(cfg: Config, w: World, e: Event, dir: string, before: Option<int64>)
    requires e.call.NodePublishCall? && CapIs(w.quotas, dir, before)
    ensures CapIs(Step(cfg, w, e).quotas, dir, NowAsked(cfg, w, e, dir, before))
  {
    hide CapIs, Step, Allocate, NeedsVolume, Publishes, Stores, PathOf;
    var c, env := e.call, e.env;
    PublishStep(cfg, w, e);
    AllocateQuota(cfg, w, c.id, EphemeralName(c.id), EPHEMERAL_SIZE, MountAccess, true, c.kind, env);
    AddingSetsCap(w.quotas, PathOf(cfg, c.id), EPHEMERAL_SIZE, env.quota, dir, before);
    if Publishes(cfg, w, c, env) {
      PublishesMeans(cfg, w, c, env);
    }
  }

  lemma ReleaseCaps(cfg: Config, w: World, id: string, written: bool, env: Env, dir: string, before: Option<int64>)
    requires CapIs(w.quotas, dir, before)
    ensures CapIs(Release(cfg, w, id, written, env).0.quotas, dir, before)
  {
    hide CapIs, Release;
    ReleaseQuota(cfg, w, id, written, env);
    RemovingKeepsCap(w.quotas, PathOf(cfg, id), env.quota, dir, before);
  }

  lemma DeleteCaps(cfg: Config, w: World, e: Event, dir: string, before: Option<int64>)
    requires (e.call.DeleteVolumeCall? || e.call.NodeUnpublishCall?)
    requires CapIs(w.quotas, dir, before)
    ensures CapIs(Step(cfg, w, e).quotas, dir, before)
  {
    hide CapIs, Step, Release, Deletes;
    if e.call.DeleteVolumeCall? {
      DeleteStep(cfg, w, e);
      ReleaseCaps(cfg, w, e.call.id, e.env.written, e.env, dir, before);
    } else {
      UnpublishStep(cfg, w, e);
      ReleaseCaps(cfg, w.(mounts := w.mounts - {e.call.target}), e.call.id, e.env.written, e.env, dir, before);
    }
  }

  lemma ExpandQuotas(cfg: Config, w: World, e: Event)
    requires e.call.NodeExpandCall?
    ensures Step(cfg, w, e).quotas ==
      if ExpandsQuota(cfg, w, e.call, e.env)
      then Resizing(w.quotas, PathOf(cfg, e.call.id), SizeText(e.call.capRange.value as real), e.env.quota).0
      else w.quotas
  {
    hide Resizing, SizeText, IndexBy;
  }

  lemma ExpandCaps(cfg: Config, w: World, e: Event, dir: string, before: Option<int64>)
    requires e.call.NodeExpandCall? && CapIs(w.quotas, dir, before)
    ensures CapIs(Step(cfg, w, e).quotas, dir, NowAsked(cfg, w, e, dir, before))
  {
    hide Step, Resizing, SizeText, PathOf;
    ExpandQuotas(cfg, w, e);
    if ExpandsQuota(cfg, w, e.call, e.env) && dir in TableOf(Step(cfg, w, e).quotas) {
      ResizingCap(w.quotas, PathOf(cfg, e.call.id), SizeText(e.call.capRange.value as real), e.env.quota, dir);
    }
  }

  /** A call leaves every cap as it was, except that of the directory it asks a quota for. */
  lemma CallCaps(cfg: Config, w: World, e: Event, dir: string, before: Option<int64>)
    requires !e.call.RestartCall? && CapIs(w.quotas, dir, before)
    ensures CapIs(Step(cfg, w, e).quotas, dir, NowAsked(cfg, w, e, dir, before))
  {
    hide CapIs, Step, PathOf;
    if EditsVolume(e.call) {
      var _ := EditStep(cfg, w, e);
    } else if ForSnapshots(e.call) {
      SnapshotStepKeepsVolumes(cfg, w, e);
    } else if e.call.CreateVolumeCall? {
      CreateCaps(cfg, w, e, dir, before);
    } else if e.call.NodePublishCall? {
      PublishCaps(cfg, w, e, dir, before);
    } else if e.call.NodeExpandCall? {
      ExpandCaps(cfg, w, e, dir, before);
    } else {
      DeleteCaps(cfg, w, e, dir, before);
    }
  }

  lemma RestartCaps(cfg: Config, w: World, e: Event, dir: string, before: Option<int64>)
    requires e.call.RestartCall? && CapIs(w.quotas, dir, before)
    requires FileMirrors(w.quotas) && w.quotas.Enabled? && w.quotas.clean && AllPlain(w.quotas.table)
    ensures CapIs(Step(cfg, w, e).quotas, dir, before) && AllPlain(TableOf(Step(cfg, w, e).quotas))
  {
    hide Started, Mirrors, Parse, Plain;
    var existing := w.files - e.env.lost;
    StartedReads(w.quotas.text, existing, e.env.quota);
    ReloadKeepsTable(w.quotas.text, w.quotas.table, existing);
  }

  // ---------- runs ----------

  /** Names are printable, and a restart finds the projects file up to date. */
  predicate Steady(cfg: Config, w: World, e: Event) {
    Tame(cfg, e) && (e.call.RestartCall? ==> w.quotas.Enabled? && w.quotas.clean)
  }

  ghost predicate SteadyRun(cfg: Config, w: World, es: seq<Event>)
    decreases |es|
  {
    es == [] || (Steady(cfg, w, es[0]) && SteadyRun(cfg, Step(cfg, w, es[0]), es[1..]))
  }

  lemma StepCaps(cfg: Config, w: World, e: Event, dir: string, before: Option<int64>)
    requires Steady(cfg, w, e) && CapIs(w.quotas, dir, before)
    requires FileMirrors(w.quotas) && AllPlain(TableOf(w.quotas))
    ensures CapIs(Step(cfg, w, e).quotas, dir, NowAsked(cfg, w, e, dir, before))
    ensures FileMirrors(Step(cfg, w, e).quotas) && AllPlain(TableOf(Step(cfg, w, e).quotas))
  {
    hide CapIs, Tame, AllPlain, FileMirrors, Step;
    StepFileMirrors(cfg, w, e);
    if e.call.RestartCall? {
      RestartCaps(cfg, w, e, dir, before);
    } else {
      CallCaps(cfg, w, e, dir, before);
      CallPlain(cfg, w, e);
    }
  }

  lemma {:induction false} RunCaps(cfg: Config, w: World, es: seq<Event>, dir: string, before: Option<int64>)
    requires SteadyRun(cfg, w, es) && CapIs(w.quotas, dir, before)
    requires FileMirrors(w.quotas) && AllPlain(TableOf(w.quotas))
    ensures CapIs(Run(cfg, w, es).quotas, dir, LastAsked(cfg, w, es, dir, before))
    decreases |es|
  {
    hide CapIs, AllPlain, FileMirrors, NowAsked, Steady;
    if es != [] {
      StepCaps(cfg, w, es[0], dir, before);
      RunCaps(cfg, Step(cfg, w, es[0]), es[1..], dir, NowAsked(cfg, w, es[0], dir, before));
    }
  }

  /** In every reachable state the cap of a directory is that of the size its volume was created with or
      last expanded to on the node, through failed commands and restarts that find the file up to date. */
  lemma ReachableCaps(cfg: Config, w: World, es: seq<Event>, dir: string)
    requires Initial(w) && SteadyRun(cfg, w, es) && dir in TableOf(Run(cfg, w, es).quotas)
    ensures var asked := LastAsked(cfg, w, es, dir, None);
      asked.Some? && TableOf(Run(cfg, w, es).quotas)[dir].cap == SizeText(asked.value as real)
  {
    InitialFile(w);
    RunCaps(cfg, w, es, dir, None);
  }

  // ---------- caps and stored sizes ----------

  lemma UnitsDiffer(u: nat, t: nat)
    requires u <= 6 && t <= 6 && UNITS[u] == UNITS[t]
    ensures u == t
  {
  }

  /** Two sizes have the same cap exactly when they round to the same amount of the same unit. */
  lemma SameCapIff(a: real, b: real)
    requires a >= 0.0 && b >= 0.0
    ensures SizeText(a) == SizeText(b) <==> AmountOf(a) == AmountOf(b) && UnitOf(a) == UnitOf(b)
  {
    RoundsDown(a);
    RoundsDown(b);
    var max := if AmountOf(a) > AmountOf(b) then AmountOf(a) else AmountOf(b);
    TextTellsQuota(a, max);
    TextTellsQuota(b, max);
    if SizeText(a) == SizeText(b) {
      UnitsDiffer(UnitOf(a), UnitOf(b));
    }
  }

  /** The volume's quota is that of its stored size. */
  ghost predicate CapCurrent(cfg: Config, w: World, id: string) {
    var v, dir := Find(w.res.volumes, VolumeID, id), PathOf(cfg, id);
    v.Some? && dir in TableOf(w.quotas) && TableOf(w.quotas)[dir].cap == SizeText(v.value.size as real)
  }

  /** An expansion in the controller grows the stored size and leaves the cap: they still agree exactly
      when both sizes round to the same cap. */
  lemma ExpandLeavesCapIff(cfg: Config, w: World, id: string, size: int64, env: Env)
    requires CapCurrent(cfg, w, id) && cfg.enableVolumeExpansion && id != "" && size <= cfg.maxVolumeSize
    requires 0 <= Find(w.res.volumes, VolumeID, id).value.size < size
    ensures var v, w' := Find(w.res.volumes, VolumeID, id).value, ControllerExpand(cfg, w, id, Some(size), env).0;
      && Find(w'.res.volumes, VolumeID, id) == Some(v.(size := size)) && w'.quotas == w.quotas
      && (CapCurrent(cfg, w', id) <==>
            AmountOf(v.size as real) == AmountOf(size as real) && UnitOf(v.size as real) == UnitOf(size as real))
  {
    hide SizeText, AmountOf, UnitOf, IndexBy;
    var v := Find(w.res.volumes, VolumeID, id).value;
    FoundHasID(w.res.volumes, id);
    FindPut(w.res.volumes, VolumeID, v.(size := size), id);
    SameCapIff(v.size as real, size as real);
  }

  /** The expansion on the node that follows it brings them together again, if the volume has a quota. */
  lemma NodeExpandCatchesUp(cfg: Config, w: World, e: Event)
    requires e.call.NodeExpandCall? && ExpandsQuota(cfg, w, e.call, e.env)
    requires e.call.capRange.value == Find(w.res.volumes, VolumeID, e.call.id).value.size
    requires PathOf(cfg, e.call.id) in TableOf(w.quotas)
    ensures CapCurrent(cfg, Step(cfg, w, e), e.call.id)
  {
    hide Step, Resizing, SizeText, PathOf, IndexBy;
    var dir, cap := PathOf(cfg, e.call.id), SizeText(e.call.capRange.value as real);
    ExpandQuotaStep(cfg, w, e);
    ExpandQuotas(cfg, w, e);
    StillThere(w.quotas, dir, cap, e.env.quota);
    ResizingCap(w.quotas, dir, cap, e.env.quota, dir);
  }

  lemma StillThere(q: Quotas, dir: string, cap: string, o: Outcomes)
    ensures dir in TableOf(q) ==> dir in TableOf(Resizing(q, dir, cap, o).0)
  {
    hide IsOrder;
  }
}
