// What publishing and unpublishing answer and change, in terms of the records and the outcomes on the
// node: exactly when a target is mounted and recorded, the code of every refusal, and the whole effect.
module NodeAnswers {
  import opened Base
  import opened Lists
  import opened Sorting
  import opened State
  import opened Quota
  import opened Sizes
  import opened Driver
  import opened Answers
  import opened VolumeAnswers

  // ---------- NodePublishVolume ----------

  /** The request's own context decides, and the driver's mode where there is none. */
  predicate Inline(cfg: Config, c: Call)
    requires c.NodePublishCall?
  {
    if c.context == "" then cfg.ephemeral else c.context == "true"
  }

  ghost predicate NameInUse(w: World, name: string) { exists u :: u in w.res.volumes && u.name == name }

  predicate ValidPublish(c: Call)
    requires c.NodePublishCall?
  {
    c.cap.Some? && c.id != "" && c.target != ""
  }

  lemma InvalidPublish(cfg: Config, w: World, c: Call, env: Env)
    requires c.NodePublishCall? && !ValidPublish(c)
    ensures Answer(cfg, w, c, env) == (w, Failed(InvalidArgument))
  {
  }

  lemma MissingPublish(cfg: Config, w: World, c: Call, env: Env)
    requires c.NodePublishCall? && ValidPublish(c) && NoVolume(w, c.id)
    requires Inline(cfg, c) ==> NameInUse(w, "ephemeral-" + c.id)
    ensures Answer(cfg, w, c, env) == (w, Failed(NotFound))
  {
    hide IndexBy, Allocate, PublishRefusal, MountReply;
    NotStored(w, c.id);
    NamedFound(w, "ephemeral-" + c.id);
  }

  lemma NamedFound(w: World, name: string)
    ensures NameInUse(w, name) <==> Find(w.res.volumes, VolumeName, name).Some?
  {
    hide IndexBy;
  }

  /** The volume may be published to the target: single-writer volumes have no other target, and one that
      is not ephemeral is published from where it is staged. */
  ghost predicate MayPublish(cfg: Config, v: Volume, c: Call)
    requires c.NodePublishCall?
  {
    && (c.singleWriter ==> forall p :: p in v.published ==> p == c.target)
    && (!Inline(cfg, c) ==> c.staging in v.staged)
  }

  /** The outcome of publishing a stored volume. */
  ghost predicate PublishOutcome(cfg: Config, w: World, c: Call, v: Volume, env: Env, w': World, reply: Reply)
    requires c.NodePublishCall? && c.cap.Some?
  {
    var cap, path := c.cap.value, cfg.stateDir + "/" + v.id;
    var taken := c.singleWriter && exists p :: p in v.published && p != c.target;
    var unstaged, may := !Inline(cfg, c) && v.staged == [], MayPublish(cfg, v, c);
    var fits := (cap == Block ==> v.access == BlockAccess) && (cap == Mount ==> v.access == MountAccess);
    var plain, present, mounted := cap == NoAccessType, path in w.files, c.target in w.mounts;
    var checked := env.checkOK && (cap == Block ==> present && env.loopOK && env.targetOK);
    var mounts := may && fits && !plain && checked && !mounted && present && env.mountOK;
    var fails := may && fits && !plain && checked && !mounted && (!present || !env.mountOK);
    && (reply == Failed(FailedPrecondition) <==> taken || unstaged)
    && (reply == Failed(InvalidArgument) <==> (!taken && !unstaged && !may) || (may && !fits))
    && (reply == Failed(Unknown) <==> may && fits && !plain && (!checked || fails))
    && (reply == Failed(Internal) <==> (mounts || (may && plain)) && !env.writtenAgain)
    && (reply == Done <==>
          || ((mounts || (may && plain)) && env.writtenAgain)
          || (may && fits && !plain && checked && mounted))
    && if mounts || (may && plain)
       then Replaced(if mounts then w.(mounts := w.mounts + {c.target}) else w, w', v,
                     v.(nodeID := cfg.nodeID, published := v.published + [c.target]), env.writtenAgain)
       else w' == if fails && v.ephemeral && cap == Mount && env.removeOK
                  then w.(files := w.files - {path}) else w
  }

  lemma PublishAnswers(cfg: Config, w: World, c: Call, v: Volume, env: Env)
    requires c.NodePublishCall? && ValidPublish(c)
    requires Unique(w.res.volumes, VolumeID) && v in w.res.volumes && v.id == c.id
    requires Inline(cfg, c) ==> NameInUse(w, "ephemeral-" + c.id)
    ensures var (w', reply) := Answer(cfg, w, c, env); PublishOutcome(cfg, w, c, v, env, w', reply)
  {
    hide IndexBy, Allocate, Publish, PublishOutcome;
    NamedFound(w, "ephemeral-" + c.id);
    StoredPublish(cfg, w, c, v, env);
  }

  lemma StoredPublish(cfg: Config, w: World, c: Call, v: Volume, env: Env)
    requires c.NodePublishCall? && ValidPublish(c)
    requires Unique(w.res.volumes, VolumeID) && v in w.res.volumes && v.id == c.id
    ensures var (w', reply) :=
        Publish(cfg, w, c.id, c.target, c.staging, c.cap.value, c.singleWriter, Inline(cfg, c), env);
      PublishOutcome(cfg, w, c, v, env, w', reply)
  {
    hide IndexBy, SaveVolume, Replaced, PublishRefusal, MayPublish, Unique;
    FoundByKey(w.res.volumes, VolumeID, v);
    RefusalIs(cfg, v, c);
    var w1 := if c.cap.value == NoAccessType then w else w.(mounts := w.mounts + {c.target});
    SavingReplaces(w1, v, v.(nodeID := cfg.nodeID, published := v.published + [c.target]), env.writtenAgain);
  }

  lemma RefusalIs(cfg: Config, v: Volume, c: Call)
    requires c.NodePublishCall?
    ensures var refusal := PublishRefusal(v, c.target, c.staging, c.singleWriter, Inline(cfg, c));
      var taken := c.singleWriter && exists p :: p in v.published && p != c.target;
      var unstaged := !Inline(cfg, c) && v.staged == [];
      && (MayPublish(cfg, v, c) ==> !taken && !unstaged)
      && refusal == if MayPublish(cfg, v, c) then None
                    else if taken || unstaged then Some(FailedPrecondition) else Some(InvalidArgument)
  {
    forall p | p in v.published && p != c.target ensures MountedElsewhere(v, c.target) {
      var i :| 0 <= i < |v.published| && v.published[i] == p;
      assert v.published[i] != c.target;
    }
    if i :| 0 <= i < |v.published| && v.published[i] != c.target {
      assert v.published[i] in v.published;
    }
  }

  // ---------- ephemeral volumes ----------

  /** The volume is in the list, in the place of one with its ID where there is one. */
  ghost predicate Entered(vs: seq<Volume>, vs': seq<Volume>, v: Volume) {
    || ((forall u :: u in vs ==> u.id != v.id) && vs' == vs + [v])
    || exists i :: 0 <= i < |vs| && vs[i].id == v.id && vs' == vs[i := v]
  }

  /** Publishing an ephemeral volume that is not there yet stores it first. Where that succeeds the call
      answers and does what it would do with the volume stored already. */
  lemma InlinePublish(cfg: Config, w: World, c: Call, v: Volume, env: Env) returns (vs: seq<Volume>)
    requires c.NodePublishCall? && ValidPublish(c) && Inline(cfg, c) && !NameInUse(w, "ephemeral-" + c.id)
    requires Unique(w.res.volumes, VolumeID) && Untouched(cfg, v)
    requires v.id == c.id && v.name == "ephemeral-" + c.id && v.size == 0x640_0000 && v.access == MountAccess
    requires v.ephemeral
    ensures Entered(w.res.volumes, vs, v) && Unique(vs, VolumeID)
    ensures (forall k :: !Placed(cfg, w.res.volumes, v.size, c.kind, env.order, k)) ==>
      Answer(cfg, w, c, env) == (w, Failed(Unplaced(cfg, v.size, c.kind)))
    ensures Placed(cfg, w.res.volumes, v.size, c.kind, env.order, v.kind) ==>
      var w1 := w.(res := w.res.(volumes := vs), files := w.files + {v.path}, clean := false);
      var quotas := Adding(w.quotas, v.path, SizeText(v.size as real), env.quota);
      Answer(cfg, w, c, env) ==
        if !env.filesOK then (w, Failed(Unknown))
        else if !env.written then (w1, Failed(Internal))
        else Answer(cfg, w1.(file := Some(w1.res), clean := true, quotas := quotas), c, env)
  {
    hide IndexBy, Put, Entered, Publish, Adding, SizeText, Placed, Unplaced, ChooseKind, Unique;
    NamedFound(w, "ephemeral-" + c.id);
    ChoiceAnswers(cfg, w.res.volumes, v.size, c.kind, env.order);
    vs := Put(w.res.volumes, VolumeID, v);
    PutEnters(w.res.volumes, v);
    NamedFound(w.(res := w.res.(volumes := vs)), "ephemeral-" + c.id);
  }

  lemma PutEnters(vs: seq<Volume>, v: Volume)
    requires Unique(vs, VolumeID)
    ensures var vs' := Put(vs, VolumeID, v); Entered(vs, vs', v) && Unique(vs', VolumeID) && v in vs'
  {
    hide IndexBy;
    PutUnique(vs, VolumeID, v, VolumeID);
    var i := IndexBy(vs, VolumeID, v.id);
    assert Put(vs, VolumeID, v)[i] == v;
  }

  // ---------- NodeUnpublishVolume ----------

  lemma UnpublishAnswers(cfg: Config, w: World, v: Volume, target: string, env: Env)
    requires Unique(w.res.volumes, VolumeID) && v in w.res.volumes
    ensures var (w', reply) := Answer(cfg, w, NodeUnpublishCall(v.id, target), env);
      var valid, listed := v.id != "" && target != "", target in v.published;
      var unmounts := valid && listed && env.checkOK && (target in w.mounts ==> env.unmountOK);
      var deletable := v.ephemeral ==> (v.access == BlockAccess ==> env.detachOK) && env.removeOK;
      var ends, w1 := unmounts && env.targetRemoved && deletable, w.(mounts := w.mounts - {target});
      && (reply == Failed(InvalidArgument) <==> !valid)
      && (reply == Failed(Unknown) <==> valid && listed && !ends)
      && (reply == Failed(Internal) <==> ends && !env.written)
      && (reply == Done <==> valid && (!listed || (ends && env.written)))
      && if !unmounts then w' == w
         else if !ends then w' == w1
         else if v.ephemeral then Deleted(w1, w', v, cfg.stateDir + "/" + v.id, env.written, env)
         else exists left :: WithoutFirst(v.published, target, left)
                && Replaced(w1, w', v, v.(published := left), env.written)
  {
    hide IndexBy, SaveVolume, Replaced, Drop, WithoutFirst, Release, Deleted;
    FoundByKey(w.res.volumes, VolumeID, v);
    var left, w1 := Drop(v.published, Self, target), w.(mounts := w.mounts - {target});
    SavingReplaces(w1, v, v.(published := left), env.written);
    if target in v.published {
      DroppedFirst(v.published, target);
    }
    ReleaseDeletes(cfg, w1, v, env);
  }

  lemma ReleaseDeletes(cfg: Config, w: World, v: Volume, env: Env)
    requires Unique(w.res.volumes, VolumeID) && v in w.res.volumes
    ensures var (w', failure) := Release(cfg, w, v.id, env.written, env);
      if (v.access == BlockAccess ==> env.detachOK) && env.removeOK
      then && failure == (if env.written then None else Some(Internal))
           && Deleted(w, w', v, cfg.stateDir + "/" + v.id, env.written, env)
      else w' == w && failure == Some(Unknown)
  {
    hide IndexBy, Removing;
    FoundByKey(w.res.volumes, VolumeID, v);
  }
}
