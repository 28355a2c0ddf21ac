// What the controller and staging calls answer and change, in terms of the records: for each call
// exactly when it succeeds, the code of every refusal, and the whole effect.
module Answers {
  import opened Base
  import opened Lists
  import opened Sorting
  import opened State
  import opened ProjectIDs
  import opened ProjectsFile
  import opened Quota
  import opened Sizes
  import opened Driver
  import opened Capacity
  import opened Soundness

  // ---------- changes of one volume ----------

  ghost function Answer(cfg: Config, w: World, c: Call, env: Env): (World, Reply) { StepReply(cfg, w, Event(c, env)) }

  ghost predicate NoVolume(w: World, id: string) { forall v :: v in w.res.volumes ==> v.id != id }

  /** Only the state has changed, and it went to the state file if that could be written. */
  ghost predicate Wrote(w: World, w': World, written: bool) {
    w' == w.(res := w'.res, file := if written then Some(w'.res) else w.file, clean := written)
  }

  /** One volume has another version, where it was in the list; nothing else is different. */
  ghost predicate Replaced(w: World, w': World, v: Volume, v': Volume, written: bool) {
    && Wrote(w, w', written)
    && w'.res == w.res.(volumes := w'.res.volumes)
    && exists i :: 0 <= i < |w.res.volumes| && w.res.volumes[i] == v && w'.res.volumes == w.res.volumes[i := v']
  }

  lemma FoundByKey<T>(s: seq<T>, key: T -> string, x: T)
    requires Unique(s, key) && x in s
    ensures Find(s, key, key(x)) == Some(x)
  {
    hide IndexBy;
    var i :| 0 <= i < |s| && s[i] == x;
    forall j | 0 <= j < i ensures key(s[j]) != key(x) {
      assert key(s[j]) != key(s[i]);
    }
    IndexIs(s, key, key(x), i);
  }

  lemma NotStored(w: World, id: string)
    requires NoVolume(w, id)
    ensures Find(w.res.volumes, VolumeID, id).None?
  {
  }

  lemma SavingReplaces(w: World, v: Volume, v': Volume, written: bool)
    requires Unique(w.res.volumes, VolumeID) && v in w.res.volumes && v'.id == v.id
    ensures Replaced(w, SaveVolume(w, v', written), v, v', written)
  {
    hide IndexBy;
    FoundByKey(w.res.volumes, VolumeID, v);
    var i := IndexBy(w.res.volumes, VolumeID, v.id);
    assert w.res.volumes[i] == v;
  }

  // ---------- attaching ----------

  /** Indices of the attached volumes. */
  ghost function Attached(vs: seq<Volume>): set<int> { set i | 0 <= i < |vs| && vs[i].attached }

  /** What the attach limit is compared with is the number of attached volumes. */
  lemma {:induction false} AttachCountIs(vs: seq<Volume>)
    ensures SumBy(vs, AttachedBit) == |Attached(vs)|
  {
    if vs == [] {
      assert Attached(vs) == {};
    } else {
      var n := |vs| - 1;
      AttachCountIs(vs[..n]);
      assert Attached(vs) == Attached(vs[..n]) + if vs[n].attached then {n} else {};
    }
  }

  /** A detached volume frees its slot. */
  lemma DetachFrees(w: World, w': World, v: Volume, written: bool)
    requires Replaced(w, w', v, v.(attached := false), written)
    ensures |Attached(w'.res.volumes)| == |Attached(w.res.volumes)| - if v.attached then 1 else 0
  {
    var i :| 0 <= i < |w.res.volumes| && w.res.volumes[i] == v
      && w'.res.volumes == w.res.volumes[i := v.(attached := false)];
    assert Attached(w'.res.volumes) == Attached(w.res.volumes) - {i};
  }

  lemma AttachAnswers(cfg: Config, w: World, v: Volume, nodeID: string, hasCap: bool, readonly: bool, env: Env)
    requires Unique(w.res.volumes, VolumeID) && v in w.res.volumes
    ensures var (w', reply) := Answer(cfg, w, ControllerPublishCall(v.id, nodeID, hasCap, readonly), env);
      var valid := v.id != "" && nodeID != "" && hasCap;
      var accepted := cfg.enableAttach && valid && nodeID == cfg.nodeID;
      var full := cfg.attachLimit > 0 && |Attached(w.res.volumes)| >= cfg.attachLimit;
      && (reply == Failed(Unimplemented) <==> !cfg.enableAttach)
      && (reply == Failed(InvalidArgument) <==> cfg.enableAttach && !valid)
      && (reply == Failed(NotFound) <==> cfg.enableAttach && valid && nodeID != cfg.nodeID)
      && (reply == Failed(AlreadyExists) <==> accepted && v.attached && v.readOnlyAttach != readonly)
      && (reply == Failed(ResourceExhausted) <==> accepted && !v.attached && full)
      && (reply == Failed(Internal) <==> accepted && !v.attached && !full && !env.written)
      && (reply == Done <==>
            accepted && if v.attached then v.readOnlyAttach == readonly else !full && env.written)
      && if accepted && !v.attached && !full
         then Replaced(w, w', v, v.(attached := true, readOnlyAttach := readonly), env.written) else w' == w
  {
    hide IndexBy, SaveVolume, Replaced;
    FoundByKey(w.res.volumes, VolumeID, v);
    AttachCountIs(w.res.volumes);
    SavingReplaces(w, v, v.(attached := true, readOnlyAttach := readonly), env.written);
  }

  lemma DetachAnswers(cfg: Config, w: World, v: Volume, nodeID: string, env: Env)
    requires Unique(w.res.volumes, VolumeID) && v in w.res.volumes
    ensures var (w', reply) := Answer(cfg, w, ControllerUnpublishCall(v.id, nodeID), env);
      var named := nodeID == "" || nodeID == cfg.nodeID;
      var inUse := (v.staged != [] || v.published != []) && cfg.checkVolumeLifecycle;
      var accepted := cfg.enableAttach && v.id != "" && named && !inUse;
      && (reply == Failed(Unimplemented) <==> !cfg.enableAttach)
      && (reply == Failed(InvalidArgument) <==> cfg.enableAttach && v.id == "")
      && (reply == Failed(NotFound) <==> cfg.enableAttach && v.id != "" && !named)
      && (reply == Failed(Internal) <==>
            cfg.enableAttach && v.id != "" && named && (inUse || !env.written))
      && (reply == Done <==> accepted && env.written)
      && if accepted then Replaced(w, w', v, v.(attached := false), env.written) else w' == w
  {
    hide IndexBy, SaveVolume, Replaced;
    FoundByKey(w.res.volumes, VolumeID, v);
    SavingReplaces(w, v, v.(attached := false), env.written);
  }

  // ---------- staging ----------

  lemma StageAnswers(cfg: Config, w: World, v: Volume, staging: string, hasCap: bool, env: Env)
    requires Unique(w.res.volumes, VolumeID) && v in w.res.volumes
    ensures var (w', reply) := Answer(cfg, w, NodeStageCall(v.id, staging, hasCap), env);
      var valid := v.id != "" && staging != "" && hasCap;
      var detached := cfg.enableAttach && !v.attached;
      var stages := valid && !detached && v.staged == [];
      && (reply == Failed(InvalidArgument) <==> !valid)
      && (reply == Failed(FailedPrecondition) <==> valid && !detached && v.staged != [] && staging !in v.staged)
      && (reply == Failed(Internal) <==> valid && (detached || (stages && !env.written)))
      && (reply == Done <==> valid && !detached && (staging in v.staged || (stages && env.written)))
      && if stages then Replaced(w, w', v, v.(staged := [staging]), env.written) else w' == w
  {
    hide IndexBy, SaveVolume, Replaced;
    FoundByKey(w.res.volumes, VolumeID, v);
    SavingReplaces(w, v, v.(staged := [staging]), env.written);
    assert v.staged == [] ==> v.staged + [staging] == [staging];
  }

  /** A list without the first occurrence of a string. */
  ghost predicate WithoutFirst(s: seq<string>, x: string, t: seq<string>) {
    exists i :: 0 <= i < |s| && s[i] == x && x !in s[..i] && t == s[..i] + s[i + 1..]
  }

  lemma DroppedFirst(s: seq<string>, x: string)
    requires x in s
    ensures WithoutFirst(s, x, Drop(s, Self, x))
  {
    var i :| 0 <= i < |s| && s[i] == x;
    assert Self(s[i]) == x;
    var k := IndexBy(s, Self, x);
    assert forall j :: 0 <= j < k ==> Self(s[j]) != x;
    assert s[k] == x && x !in s[..k];
  }

  lemma UnstageAnswers(cfg: Config, w: World, v: Volume, staging: string, env: Env)
    requires Unique(w.res.volumes, VolumeID) && v in w.res.volumes
    ensures var (w', reply) := Answer(cfg, w, NodeUnstageCall(v.id, staging), env);
      var valid := v.id != "" && staging != "";
      var unstages := valid && staging in v.staged && v.published == [];
      && (reply == Failed(InvalidArgument) <==> !valid)
      && (reply == Failed(Internal) <==> valid && staging in v.staged && (v.published != [] || !env.written))
      && (reply == Done <==> valid && (staging !in v.staged || (v.published == [] && env.written)))
      && if !unstages then w' == w
         else exists left :: WithoutFirst(v.staged, staging, left)
                && Replaced(w, w', v, v.(staged := left), env.written)
  {
    hide IndexBy, SaveVolume, Replaced, Drop, WithoutFirst;
    FoundByKey(w.res.volumes, VolumeID, v);
    var left := Drop(v.staged, Self, staging);
    SavingReplaces(w, v, v.(staged := left), env.written);
    if staging in v.staged {
      DroppedFirst(v.staged, staging);
    }
  }

  // ---------- expanding ----------

  lemma ControllerExpandAnswers(cfg: Config, w: World, v: Volume, capRange: Option<int64>, env: Env)
    requires Unique(w.res.volumes, VolumeID) && v in w.res.volumes
    ensures var (w', reply) := Answer(cfg, w, ControllerExpandCall(v.id, capRange), env);
      var valid := v.id != "" && capRange.Some?;
      && (reply == Failed(Unimplemented) <==> !cfg.enableVolumeExpansion)
      && (reply == Failed(InvalidArgument) <==> cfg.enableVolumeExpansion && !valid)
      && (reply == Failed(OutOfRange) <==>
            cfg.enableVolumeExpansion && valid && capRange.value > cfg.maxVolumeSize)
      && if cfg.enableVolumeExpansion && valid && v.size < capRange.value <= cfg.maxVolumeSize
         then && reply == (if env.written then ExpandedTo(capRange.value) else Failed(Internal))
              && Replaced(w, w', v, v.(size := capRange.value), env.written)
         else && w' == w
              && (cfg.enableVolumeExpansion && valid && capRange.value <= cfg.maxVolumeSize ==>
                    reply == ExpandedTo(v.size))
  {
    hide IndexBy, SaveVolume, Replaced;
    FoundByKey(w.res.volumes, VolumeID, v);
    if capRange.Some? {
      SavingReplaces(w, v, v.(size := capRange.value), env.written);
    }
  }

  /** Only the cap of the volume's directory can change; without a quota table nothing does. */
  lemma NodeExpandAnswers(cfg: Config, w: World, v: Volume, path: string, capRange: Option<int64>, env: Env)
    requires Unique(w.res.volumes, VolumeID) && v in w.res.volumes
    ensures var (w', reply) := Answer(cfg, w, NodeExpandCall(v.id, path, capRange), env);
      var enabled, valid := cfg.enableVolumeExpansion, path != "" && capRange.Some?;
      var fits := capRange.Some? && capRange.value <= cfg.maxExpansionSizeNode;
      var dir, o := cfg.stateDir + "/" + v.id, env.quota;
      var suitable := if v.access == MountAccess then env.pathKind == Directory else env.pathKind == Device;
      && (reply == Failed(Unimplemented) <==> !enabled)
      && (reply == Failed(InvalidArgument) <==>
            enabled && (v.id == "" || !valid || (fits && !suitable)))
      && (reply == Failed(OutOfRange) <==> enabled && v.id != "" && valid && !fits)
      && (reply == Done <==>
            && enabled && v.id != "" && valid && fits && suitable
            && (w.quotas.Enabled? ==> dir in w.quotas.table && o.limitOK && o.limitWritten))
      && (reply == Done || reply.Failed?)
      && w' == if enabled && v.id != "" && valid && fits && suitable
               then w.(quotas := Resizing(w.quotas, dir, SizeText(capRange.value as real), o).0) else w
  {
    hide IndexBy, SizeText, IsOrder, Print;
    FoundByKey(w.res.volumes, VolumeID, v);
  }

  // ---------- volumes that are not there ----------

  /** Detaching a volume that is not there succeeds; attaching and expanding it does not. */
  lemma MissingVolumeController(cfg: Config, w: World, id: string, nodeID: string, hasCap: bool, readonly: bool,
                                capRange: Option<int64>, env: Env)
    requires NoVolume(w, id)
    ensures Answer(cfg, w, ControllerPublishCall(id, nodeID, hasCap, readonly), env)
         == (w, Failed(if !cfg.enableAttach then Unimplemented
                       else if id == "" || nodeID == "" || !hasCap then InvalidArgument else NotFound))
    ensures Answer(cfg, w, ControllerUnpublishCall(id, nodeID), env)
         == (w, if !cfg.enableAttach then Failed(Unimplemented)
                else if id == "" then Failed(InvalidArgument)
                else if nodeID == "" || nodeID == cfg.nodeID then Done else Failed(NotFound))
    ensures Answer(cfg, w, ControllerExpandCall(id, capRange), env)
         == (w, Failed(if !cfg.enableVolumeExpansion then Unimplemented
                       else if id == "" || capRange.None? then InvalidArgument
                       else if capRange.value > cfg.maxVolumeSize then OutOfRange else NotFound))
  {
    hide IndexBy;
    NotStored(w, id);
  }

  lemma MissingVolumeNode(cfg: Config, w: World, id: string, path: string, hasCap: bool, capRange: Option<int64>,
                          env: Env)
    requires NoVolume(w, id)
    ensures Answer(cfg, w, NodeStageCall(id, path, hasCap), env)
         == (w, Failed(if id == "" || path == "" || !hasCap then InvalidArgument else NotFound))
    ensures Answer(cfg, w, NodeUnstageCall(id, path), env)
         == (w, Failed(if id == "" || path == "" then InvalidArgument else NotFound))
    ensures Answer(cfg, w, NodeUnpublishCall(id, path), env)
         == (w, Failed(if id == "" || path == "" then InvalidArgument else NotFound))
    ensures Answer(cfg, w, NodeExpandCall(id, path, capRange), env)
         == (w, Failed(if !cfg.enableVolumeExpansion then Unimplemented
                       else if id == "" then InvalidArgument else NotFound))
  {
    hide IndexBy;
    NotStored(w, id);
  }

  // ---------- restarts ----------

  /** Memory is what the file holds, mounts stay, and the projects file is read with what is left on disk. */
  lemma RestartAnswers(cfg: Config, w: World, env: Env)
    ensures var (w', reply) := Answer(cfg, w, RestartCall, env);
      && reply == Done
      && w'.res == (if w.file.Some? then w.file.value else Resources([], [], []))
      && w'.file == w.file && w'.clean && w'.mounts == w.mounts && w'.files == w.files - env.lost
      && w'.quotas == Started(w.quotas.text, w.files - env.lost, env.quota)
  {
    hide Started;
  }
}
