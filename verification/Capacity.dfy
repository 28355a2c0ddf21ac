// Capacity accounting per storage kind, in the driver's int64 arithmetic.
module Capacity {
  import opened Base
  import opened Lists
  import opened State
  import opened Quota
  import opened Driver
  import opened Effects

  /** The mathematical sum, next to the int64 one of Used. */
  function KindSum(vs: seq<Volume>, kind: string): int { SumBy(vs, KindSize(kind)) }

  ghost predicate NonNegative(vs: seq<Volume>) {
    forall i :: 0 <= i < |vs| ==> vs[i].size >= 0
  }

  /** Capacities are tracked, not negative, and leave room in an int64 for one more volume. */
  ghost predicate Sane(cfg: Config) {
    && cfg.capacity != map[] && cfg.maxVolumeSize >= 0
    && forall k :: 0 <= CapacityOf(cfg, k) && CapacityOf(cfg, k) + cfg.maxVolumeSize < TWO63
  }

  ghost predicate Within(cfg: Config, vs: seq<Volume>) {
    NonNegative(vs) && forall k :: KindSum(vs, k) <= CapacityOf(cfg, k)
  }

  ghost predicate WithinWorld(cfg: Config, w: World) {
    Within(cfg, w.res.volumes) && (w.file.Some? ==> Within(cfg, w.file.value.volumes))
  }

  lemma {:induction false} SumNonNegative(vs: seq<Volume>, kind: string)
    requires NonNegative(vs)
    ensures KindSum(vs, kind) >= 0
  {
    if vs != [] {
      SumNonNegative(vs[..|vs| - 1], kind);
    }
  }

  /** Within capacity the wrapping sum is the true sum. */
  lemma UsedIsExact(cfg: Config, vs: seq<Volume>, kind: string)
    requires Sane(cfg) && Within(cfg, vs)
    ensures Used(vs, kind) == KindSum(vs, kind)
  {
    SumNonNegative(vs, kind);
  }

  // ---------- list updates ----------

  lemma FoundNonNegative(vs: seq<Volume>, id: string)
    requires NonNegative(vs) && Find(vs, VolumeID, id).Some?
    ensures Find(vs, VolumeID, id).value.size >= 0
  {
  }

  /** A creation that passes the capacity check ends within capacity in its kind and adds nothing to
      another kind, even where an expansion has overdrawn it. */
  lemma PutChosen(cfg: Config, vs: seq<Volume>, v: Volume, kind: string)
    requires NonNegative(vs) && v.size >= 0
    requires KindSum(vs, v.kind) + v.size < TWO63 && FitsKind(cfg, vs, v.kind, v.size)
    ensures KindSum(Put(vs, VolumeID, v), kind) <= if kind == v.kind then CapacityOf(cfg, kind) else KindSum(vs, kind)
  {
    SumPut(vs, VolumeID, v, KindSize(kind));
    SumNonNegative(vs, v.kind);
    if Find(vs, VolumeID, v.id).Some? {
      FoundNonNegative(vs, v.id);
    }
  }

  lemma PutWithin(cfg: Config, vs: seq<Volume>, v: Volume)
    requires Sane(cfg) && Within(cfg, vs) && 0 <= v.size <= cfg.maxVolumeSize && FitsKind(cfg, vs, v.kind, v.size)
    ensures Within(cfg, Put(vs, VolumeID, v))
  {
    var t := Put(vs, VolumeID, v);
    forall k ensures KindSum(t, k) <= CapacityOf(cfg, k) {
      assert KindSum(vs, v.kind) <= CapacityOf(cfg, v.kind);
      PutChosen(cfg, vs, v, k);
    }
  }

  lemma DropWithin(cfg: Config, vs: seq<Volume>, id: string)
    requires Within(cfg, vs)
    ensures Within(cfg, Drop(vs, VolumeID, id))
  {
    var t := Drop(vs, VolumeID, id);
    forall j | 0 <= j < |t| ensures t[j].size >= 0 {
      var i := DropMember(vs, VolumeID, id, j);
    }
    forall k ensures KindSum(t, k) <= CapacityOf(cfg, k) {
      SumDrop(vs, VolumeID, id, KindSize(k));
      if Find(vs, VolumeID, id).Some? {
        FoundNonNegative(vs, id);
      }
    }
  }

  /** Updates that keep kind and size keep every sum. */
  lemma SameSizeWithin(cfg: Config, vs: seq<Volume>, v: Volume)
    requires Within(cfg, vs) && Find(vs, VolumeID, v.id).Some?
    requires var u := Find(vs, VolumeID, v.id).value; u.kind == v.kind && u.size == v.size
    ensures Within(cfg, Put(vs, VolumeID, v))
  {
    var t := Put(vs, VolumeID, v);
    FoundNonNegative(vs, v.id);
    forall k ensures KindSum(t, k) <= CapacityOf(cfg, k) {
      SumPut(vs, VolumeID, v, KindSize(k));
    }
  }

  // ---------- steps ----------

  lemma AllocateWithin(cfg: Config, w: World, id: string, name: string, size: int64, access: AccessType,
                       ephemeral: bool, kind: string, env: Env)
    requires Sane(cfg) && WithinWorld(cfg, w) && size >= 0
    ensures WithinWorld(cfg, Allocate(cfg, w, id, name, size, access, ephemeral, kind, env).0)
  {
    match ChooseKind(cfg, w.res.volumes, size, kind, env.order) {
      case Refused(_) =>
      case Chosen(k) => PutWithin(cfg, w.res.volumes, NewVolume(cfg, id, name, size, access, ephemeral, k));
    }
  }

  lemma ReleaseWithin(cfg: Config, w: World, id: string, written: bool, env: Env)
    requires WithinWorld(cfg, w)
    ensures WithinWorld(cfg, Release(cfg, w, id, written, env).0)
  {
    DropWithin(cfg, w.res.volumes, id);
  }

  lemma UpdateWithin(cfg: Config, w: World, v: Volume, written: bool)
    requires WithinWorld(cfg, w) && Find(w.res.volumes, VolumeID, v.id).Some?
    requires var u := Find(w.res.volumes, VolumeID, v.id).value; u.kind == v.kind && u.size == v.size
    ensures WithinWorld(cfg, SaveVolume(w, v, written))
  {
    SameSizeWithin(cfg, w.res.volumes, v);
  }

  lemma CreateVolumeWithin(cfg: Config, w: World, e: Event)
    requires Sane(cfg) && WithinWorld(cfg, w) && e.call.CreateVolumeCall? && e.call.size >= 0
    ensures WithinWorld(cfg, Step(cfg, w, e))
  {
    hide WithinWorld, Sane, Step, Allocate, Release, Creates, CleansUp;
    var c, env := e.call, e.env;
    CreateStep(cfg, w, e);
    AllocateWithin(cfg, w, env.uuid, c.name, c.size, RequestedAccess(c.caps), false, c.kind, env);
    ReleaseWithin(cfg, CreatedWorld(cfg, w, c, env).0, env.uuid, env.writtenAgain, env);
  }

  /** Attaching and staging leave sizes alone. */
  lemma EditWithin(cfg: Config, w: World, e: Event)
    requires WithinWorld(cfg, w) && EditsVolume(e.call) && !e.call.ControllerExpandCall?
    ensures WithinWorld(cfg, Step(cfg, w, e))
  {
    hide WithinWorld, Step, SaveVolume;
    var v := EditStep(cfg, w, e);
    if Step(cfg, w, e) != w {
      UpdateWithin(cfg, w, v, e.env.written);
    }
  }

  lemma KeptVolumesWithin(cfg: Config, w: World, w': World)
    requires WithinWorld(cfg, w)
    requires w'.res.volumes == w.res.volumes
    requires w'.file == w.file || (w'.file.Some? && w'.file.value.volumes == w.res.volumes)
    ensures WithinWorld(cfg, w')
  {
  }

  lemma NodePublishWithin(cfg: Config, w: World, e: Event)
    requires Sane(cfg) && WithinWorld(cfg, w) && e.call.NodePublishCall?
    ensures WithinWorld(cfg, Step(cfg, w, e))
  {
    hide WithinWorld, Sane, Step, Allocate, NeedsVolume, Recordable, LosesDirectory, SaveVolume;
    var c, w1 := e.call, PublishWorld(cfg, w, e.call, e.env);
    PublishStep(cfg, w, e);
    AllocateWithin(cfg, w, c.id, EphemeralName(c.id), EPHEMERAL_SIZE, MountAccess, true, c.kind, e.env);
    KeptVolumesWithin(cfg, w1, RefusedWorld(cfg, w, c, e.env));
    if Publishes(cfg, w, c, e.env) {
      var v := Find(w1.res.volumes, VolumeID, c.id).value;
      KeptVolumesWithin(cfg, w1, MountedWorld(w1, c));
      UpdateWithin(cfg, MountedWorld(w1, c), PublishedAt(cfg, v, c.target), e.env.writtenAgain);
    }
  }

  lemma UnpublishWithin(cfg: Config, w: World, e: Event)
    requires WithinWorld(cfg, w) && e.call.NodeUnpublishCall?
    ensures WithinWorld(cfg, Step(cfg, w, e))
  {
    hide WithinWorld, Step, Release, SaveVolume;
    var c, w1 := e.call, w.(mounts := w.mounts - {e.call.target});
    UnpublishStep(cfg, w, e);
    KeptVolumesWithin(cfg, w, w1);
    if Unmounts(w, c, e.env) {
      ReleaseWithin(cfg, w1, c.id, e.env.written, e.env);
      UpdateWithin(cfg, w1, UnpublishedAt(Find(w.res.volumes, VolumeID, c.id).value, c.target), e.env.written);
    }
  }

  lemma OtherStepWithin(cfg: Config, w: World, e: Event)
    requires Sane(cfg) && WithinWorld(cfg, w)
    requires e.call.DeleteVolumeCall? || e.call.NodeExpandCall? || e.call.RestartCall? || ForSnapshots(e.call)
    ensures WithinWorld(cfg, Step(cfg, w, e))
  {
    if ForSnapshots(e.call) {
      hide Step;
      SnapshotStepKeepsVolumes(cfg, w, e);
    } else if e.call.DeleteVolumeCall? {
      hide WithinWorld, Step, Release, Deletes;
      DeleteStep(cfg, w, e);
      ReleaseWithin(cfg, w, e.call.id, e.env.written, e.env);
    } else if e.call.NodeExpandCall? {
      hide Step;
      ExpandQuotaStep(cfg, w, e);
    } else {
      hide Started;
    }
  }

  ghost predicate Reasonable(e: Event) { e.call.CreateVolumeCall? ==> e.call.size >= 0 }

  /** Every step except an expansion keeps the sizes of each kind within its capacity. */
  lemma StepWithin(cfg: Config, w: World, e: Event)
    requires Sane(cfg) && WithinWorld(cfg, w) && Reasonable(e) && !e.call.ControllerExpandCall?
    ensures WithinWorld(cfg, Step(cfg, w, e))
  {
    hide WithinWorld, Sane, Step;
    if EditsVolume(e.call) {
      EditWithin(cfg, w, e);
    } else if e.call.CreateVolumeCall? {
      CreateVolumeWithin(cfg, w, e);
    } else if e.call.NodePublishCall? {
      NodePublishWithin(cfg, w, e);
    } else if e.call.NodeUnpublishCall? {
      UnpublishWithin(cfg, w, e);
    } else {
      OtherStepWithin(cfg, w, e);
    }
  }

  lemma {:induction false} RunWithin(cfg: Config, w: World, es: seq<Event>)
    requires Sane(cfg) && WithinWorld(cfg, w)
    requires forall i :: 0 <= i < |es| ==> Reasonable(es[i]) && !es[i].call.ControllerExpandCall?
    ensures WithinWorld(cfg, Run(cfg, w, es))
    decreases |es|
  {
    hide WithinWorld, Sane;
    if es != [] {
      StepWithin(cfg, w, es[0]);
      RunWithin(cfg, Step(cfg, w, es[0]), es[1..]);
    }
  }

  /** Without expansions no reachable state overdraws a kind, and the driver's int64 sum is the true one. */
  lemma ReachableWithin(cfg: Config, w: World, es: seq<Event>, kind: string)
    requires Sane(cfg) && Initial(w)
    requires forall i :: 0 <= i < |es| ==> Reasonable(es[i]) && !es[i].call.ControllerExpandCall?
    ensures var vs := Run(cfg, w, es).res.volumes;
      Used(vs, kind) == KindSum(vs, kind) <= CapacityOf(cfg, kind)
  {
    assert Within(cfg, []);
    RunWithin(cfg, w, es);
    UsedIsExact(cfg, Run(cfg, w, es).res.volumes, kind);
  }

  // ---------- expansion ----------

  /** An expansion checks the volume's own limit only: it moves the kind's sum by exactly the growth. */
  lemma ExpandGrowsSum(cfg: Config, w: World, id: string, size: int64, env: Env, kind: string)
    requires cfg.enableVolumeExpansion && id != "" && size <= cfg.maxVolumeSize
    requires Find(w.res.volumes, VolumeID, id).Some?
    ensures var v := Find(w.res.volumes, VolumeID, id).value;
      KindSum(ControllerExpand(cfg, w, id, Some(size), env).0.res.volumes, kind)
        == KindSum(w.res.volumes, kind) + if v.kind == kind && size > v.size then size - v.size else 0
  {
    var v := Find(w.res.volumes, VolumeID, id).value;
    SumPut(w.res.volumes, VolumeID, v.(size := size), KindSize(kind));
  }

  /** So capacity is kept exactly when the growth still fits: the check the driver does not make. */
  lemma ExpandWithinIff(cfg: Config, w: World, id: string, size: int64, env: Env)
    requires Within(cfg, w.res.volumes)
    requires cfg.enableVolumeExpansion && id != "" && size <= cfg.maxVolumeSize
    requires Find(w.res.volumes, VolumeID, id).Some?
    ensures var v := Find(w.res.volumes, VolumeID, id).value;
      Within(cfg, ControllerExpand(cfg, w, id, Some(size), env).0.res.volumes) <==>
        size <= v.size || KindSum(w.res.volumes, v.kind) + size - v.size <= CapacityOf(cfg, v.kind)
  {
    var v := Find(w.res.volumes, VolumeID, id).value;
    var after := ControllerExpand(cfg, w, id, Some(size), env).0.res.volumes;
    FoundNonNegative(w.res.volumes, id);
    ExpandGrowsSum(cfg, w, id, size, env, v.kind);
    forall k ensures k != v.kind ==> KindSum(after, k) == KindSum(w.res.volumes, k) {
      ExpandGrowsSum(cfg, w, id, size, env, k);
    }
  }

  // ---------- GetCapacity ----------

  /** For a configured kind, creation passes the capacity checks exactly up to the reported maximum size. */
  lemma ReportedMaximumAgrees(cfg: Config, vs: seq<Volume>, kind: string, size: int64, order: seq<string>)
    requires kind != "" && kind in cfg.capacity && size >= 0 && NonNegative(vs)
    requires KindSum(vs, kind) + cfg.maxVolumeSize < TWO63 && 0 <= CapacityOf(cfg, kind)
    ensures ChooseKind(cfg, vs, size, kind, order) == Chosen(kind) <==> size <= ReportedCapacity(cfg, vs, kind).1
    ensures ChooseKind(cfg, vs, size, kind, order).Refused? <==> size > ReportedCapacity(cfg, vs, kind).1
  {
    SumNonNegative(vs, kind);
  }

  lemma {:induction false} PickedKind(cfg: Config, vs: seq<Volume>, size: int64, order: seq<string>)
    requires "" !in order
    ensures var k := PickKind(cfg, vs, size, order);
      if k == "" then forall o :: o in order ==> !FitsKind(cfg, vs, o, size)
      else k in order && FitsKind(cfg, vs, k, size)
  {
    if order != [] && !FitsKind(cfg, vs, order[0], size) {
      PickedKind(cfg, vs, size, order[1..]);
    }
  }

  /** With no kind given, creation passes exactly when some kind reports room, whatever the map order. */
  lemma AnyKindAgrees(cfg: Config, vs: seq<Volume>, size: int64, order: seq<string>)
    requires cfg.capacity != map[] && "" !in cfg.capacity && size >= 0 && NonNegative(vs)
    requires forall k :: k in order <==> k in cfg.capacity
    requires forall k :: k in cfg.capacity ==> KindSum(vs, k) + cfg.maxVolumeSize < TWO63 && 0 <= CapacityOf(cfg, k)
    ensures ChooseKind(cfg, vs, size, "", order).Chosen? <==>
      exists k :: k in cfg.capacity && size <= ReportedCapacity(cfg, vs, k).1
  {
    PickedKind(cfg, vs, size, order);
    forall k | k in cfg.capacity
      ensures size <= ReportedCapacity(cfg, vs, k).1 <==> size <= cfg.maxVolumeSize && FitsKind(cfg, vs, k, size)
    {
      ReportedMaximumAgrees(cfg, vs, k, size, order);
    }
  }
}
