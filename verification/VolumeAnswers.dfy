// What creating and deleting volumes answers and changes, in terms of the records: which kind a new
// volume gets, which requests succeed, the code of every refusal, and what each outcome leaves behind.
module VolumeAnswers {
  import opened Base
  import opened Lists
  import opened State
  import opened Quota
  import opened Sizes
  import opened Driver
  import opened Capacity
  import opened Answers

  // ---------- the kind of a new volume ----------

  /** The sum that capacities are compared with takes each volume of the kind once. */
  lemma KindSumCounts(vs: seq<Volume>, v: Volume, kind: string)
    ensures KindSum([], kind) == 0
    ensures KindSum(vs + [v], kind) == KindSum(vs, kind) + if v.kind == kind then v.size else 0
  {
    SumAppend(vs, KindSize(kind), v);
  }

  /** In the driver's int64 arithmetic. */
  ghost predicate Room(cfg: Config, vs: seq<Volume>, kind: string, size: int64) {
    Wrap64(KindSum(vs, kind) + size) <= if kind in cfg.capacity then cfg.capacity[kind] else 0
  }

  lemma RoomIs(cfg: Config, vs: seq<Volume>, kind: string, size: int64)
    ensures FitsKind(cfg, vs, kind, size) <==> Room(cfg, vs, kind, size)
  {
    WrapAdd(KindSum(vs, kind), size);
  }

  /** The kind without a name is none: having room there ends the search without a choice. */
  ghost predicate Placed(cfg: Config, vs: seq<Volume>, size: int64, kind: string, order: seq<string>, k: string) {
    && size <= cfg.maxVolumeSize
    && if cfg.capacity == map[] then kind == "" && k == ""
       else
         && k != "" && Room(cfg, vs, k, size)
         && if kind != "" then k == kind else FirstWithRoom(cfg, vs, size, order, k)
  }

  ghost predicate FirstWithRoom(cfg: Config, vs: seq<Volume>, size: int64, order: seq<string>, k: string) {
    exists i :: 0 <= i < |order| && order[i] == k && forall j :: 0 <= j < i ==> !Room(cfg, vs, order[j], size)
  }

  lemma {:induction false} PickIsFirst(cfg: Config, vs: seq<Volume>, size: int64, order: seq<string>, k: string)
    requires k != "" && Room(cfg, vs, k, size)
    ensures PickKind(cfg, vs, size, order) == k <==> FirstWithRoom(cfg, vs, size, order, k)
  {
    if order != [] {
      RoomIs(cfg, vs, order[0], size);
      var rest := order[1..];
      PickIsFirst(cfg, vs, size, rest, k);
      if !Room(cfg, vs, order[0], size) {
        if FirstWithRoom(cfg, vs, size, rest, k) {
          var i :| 0 <= i < |rest| && rest[i] == k && forall j :: 0 <= j < i ==> !Room(cfg, vs, rest[j], size);
          assert order[i + 1] == k;
          assert forall j :: 0 < j <= i ==> order[j] == rest[j - 1];
        }
        if FirstWithRoom(cfg, vs, size, order, k) {
          var i :| 0 <= i < |order| && order[i] == k && forall j :: 0 <= j < i ==> !Room(cfg, vs, order[j], size);
          assert rest[i - 1] == k;
          assert forall j :: 0 <= j < i - 1 ==> rest[j] == order[j + 1];
        }
      } else {
        assert order[0] == k ==> FirstWithRoom(cfg, vs, size, order, k);
      }
    }
  }

  lemma {:induction false} PickHasRoom(cfg: Config, vs: seq<Volume>, size: int64, order: seq<string>)
    ensures var k := PickKind(cfg, vs, size, order); k != "" ==> Room(cfg, vs, k, size)
  {
    if order != [] {
      RoomIs(cfg, vs, order[0], size);
      PickHasRoom(cfg, vs, size, order[1..]);
    }
  }

  ghost function Unplaced(cfg: Config, size: int64, kind: string): Code {
    if size > cfg.maxVolumeSize then OutOfRange
    else if cfg.capacity == map[] then InvalidArgument
    else ResourceExhausted
  }

  lemma ChoiceAnswers(cfg: Config, vs: seq<Volume>, size: int64, kind: string, order: seq<string>)
    ensures forall k :: Placed(cfg, vs, size, kind, order, k) <==> ChooseKind(cfg, vs, size, kind, order) == Chosen(k)
    ensures forall code :: ChooseKind(cfg, vs, size, kind, order) == Refused(code) ==>
      code == Unplaced(cfg, size, kind)
  {
    hide Room, FitsKind, FirstWithRoom;
    var picked := PickKind(cfg, vs, size, order);
    PickHasRoom(cfg, vs, size, order);
    RoomIs(cfg, vs, kind, size);
    RoomIs(cfg, vs, picked, size);
    forall k | k != "" && Room(cfg, vs, k, size)
      ensures picked == k <==> FirstWithRoom(cfg, vs, size, order, k)
    {
      PickIsFirst(cfg, vs, size, order, k);
    }
  }

  // ---------- a new volume ----------

  /** Nothing has been done to the volume since it was made. */
  ghost predicate Untouched(cfg: Config, v: Volume) {
    && v.path == cfg.stateDir + "/" + v.id && v.parentVolID == "" && v.parentSnapID == ""
    && v.nodeID == "" && !v.readOnlyAttach && !v.attached && v.staged == [] && v.published == []
  }

  /** The state with one more volume, in memory and with its files. */
  function With(w: World, v: Volume): World {
    w.(res := w.res.(volumes := w.res.volumes + [v]), files := w.files + {v.path}, clean := false)
  }

  /** The same, with the state file written and the quota set as far as that succeeds. */
  ghost function WithStored(w: World, v: Volume, env: Env): World {
    With(w, v).(file := Some(With(w, v).res), clean := true,
                quotas := Adding(w.quotas, v.path, SizeText(v.size as real), env.quota))
  }

  lemma AllocationIs(cfg: Config, w: World, v: Volume, kind: string, env: Env)
    requires NoVolume(w, v.id) && Untouched(cfg, v)
    ensures var (w', failure) := Allocate(cfg, w, v.id, v.name, v.size, v.access, v.ephemeral, kind, env);
      var rest := if v.access == BlockAccess && env.remains then {v.path} else {};
      && ((forall k :: !Placed(cfg, w.res.volumes, v.size, kind, env.order, k)) ==>
            w' == w && failure == Some(Unplaced(cfg, v.size, kind)))
      && (Placed(cfg, w.res.volumes, v.size, kind, env.order, v.kind) ==>
            if !env.filesOK then w' == w.(files := w.files + rest) && failure == Some(Unknown)
            else if !env.written then w' == With(w, v) && failure == Some(Internal)
            else w' == WithStored(w, v, env) && failure.None?)
  {
    hide Adding, SizeText, IndexBy, ChooseKind, Placed, Unplaced;
    ChoiceAnswers(cfg, w.res.volumes, v.size, kind, env.order);
    PutThenDrop(w.res.volumes, VolumeID, v);
  }

  /** The state without the volume that was added last; its quota goes only when that could be written. */
  ghost function TakenBack(w: World, w1: World, v: Volume, written: bool, env: Env): World {
    w1.(res := w.res, files := w1.files - {v.path}, file := if written then Some(w.res) else w1.file,
        clean := written, quotas := if written then Removing(w1.quotas, v.path, env.quota) else w1.quotas)
  }

  lemma CleanUpIs(cfg: Config, w: World, v: Volume, env: Env)
    requires NoVolume(w, v.id) && Untouched(cfg, v)
    ensures var w1 := WithStored(w, v, env);
      Release(cfg, w1, v.id, env.writtenAgain, env).0 ==
        if (v.access == BlockAccess ==> env.detachOK) && env.removeOK then TakenBack(w, w1, v, env.writtenAgain, env)
        else w1
  {
    hide Adding, Removing, SizeText, IndexBy;
    PutThenDrop(w.res.volumes, VolumeID, v);
  }

  // ---------- CreateVolume ----------

  ghost predicate ValidCreation(cfg: Config, c: Call)
    requires c.CreateVolumeCall?
  {
    !cfg.ephemeral && c.name != "" && c.caps != [] && (Block in c.caps ==> Mount !in c.caps)
  }

  lemma InvalidCreation(cfg: Config, w: World, c: Call, env: Env)
    requires c.CreateVolumeCall? && !ValidCreation(cfg, c)
    ensures Answer(cfg, w, c, env) == (w, Failed(InvalidArgument))
  {
  }

  /** A repeated request changes nothing, and compares the size and what the volume was made from. */
  lemma RepeatedCreation(cfg: Config, w: World, c: Call, v: Volume, env: Env)
    requires c.CreateVolumeCall? && ValidCreation(cfg, c)
    requires Unique(w.res.volumes, VolumeName) && v in w.res.volumes && v.name == c.name
    ensures var (w', reply) := Answer(cfg, w, c, env);
      var otherSource := (c.source.FromSnapshot? && v.parentSnapID != "" && v.parentSnapID != c.source.id)
        || (c.source.FromVolume? && v.parentVolID != c.source.id);
      && w' == w
      && (reply == Failed(AlreadyExists) <==> v.size < c.size || otherSource)
      && (reply == Failed(InvalidArgument) <==> v.size >= c.size && c.source == UnknownSource)
      && (reply == VolumeIs(v.id, v.size) <==> v.size >= c.size && !otherSource && c.source != UnknownSource)
  {
    hide IndexBy;
    FoundByKey(w.res.volumes, VolumeName, v);
  }

  /** The volume that a valid request under a new name asks for, in the kind that was chosen for it. */
  ghost predicate AskedFor(cfg: Config, w: World, c: Call, env: Env, v: Volume)
    requires c.CreateVolumeCall?
  {
    && ValidCreation(cfg, c) && (forall u :: u in w.res.volumes ==> u.name != c.name) && NoVolume(w, env.uuid)
    && Untouched(cfg, v) && v.id == env.uuid && v.name == c.name && v.size == c.size && !v.ephemeral
    && v.access == if Block in c.caps then BlockAccess else MountAccess
  }

  /** Without room for it nothing happens. A volume that cannot be written is in memory all the same. */
  lemma FailedCreation(cfg: Config, w: World, c: Call, v: Volume, env: Env)
    requires c.CreateVolumeCall? && AskedFor(cfg, w, c, env, v)
    ensures var (w', reply) := Answer(cfg, w, c, env);
      var vs, rest := w.res.volumes, if v.access == BlockAccess && env.remains then {v.path} else {};
      && ((forall k :: !Placed(cfg, vs, c.size, c.kind, env.order, k)) ==>
            w' == w && reply == Failed(Unplaced(cfg, c.size, c.kind)))
      && (Placed(cfg, vs, c.size, c.kind, env.order, v.kind) && !env.filesOK ==>
            w' == w.(files := w.files + rest) && reply == Failed(Unknown))
      && (Placed(cfg, vs, c.size, c.kind, env.order, v.kind) && env.filesOK && !env.written ==>
            w' == With(w, v) && reply == Failed(Internal))
  {
    hide Allocate, Release, With, Placed, Unplaced, Untouched, IndexBy;
    AllocationIs(cfg, w, v, c.kind, env);
    assert Find(w.res.volumes, VolumeName, c.name).None?;
  }

  // ---------- filling a new volume ----------

  ghost predicate FromFitting(w: World, v: Volume, source: Source) {
    match source
    case NoSource => true
    case UnknownSource => false
    case FromSnapshot(id) => exists s :: s in w.res.snapshots && s.id == id && s.ready && s.size <= v.size
    case FromVolume(id) =>
      id == v.id || exists u :: u in w.res.volumes && u.id == id && u.size <= v.size && u.access == v.access
  }

  ghost predicate FromMissing(w: World, v: Volume, source: Source) {
    || (source.FromSnapshot? && forall s :: s in w.res.snapshots ==> s.id != source.id)
    || (source.FromVolume? && source.id != v.id && NoVolume(w, source.id))
  }

  ghost predicate FromUnready(w: World, source: Source) {
    source.FromSnapshot? && exists s :: s in w.res.snapshots && s.id == source.id && !s.ready
  }

  lemma LoadIs(w: World, w1: World, v: Volume, source: Source, loadOK: bool)
    requires Unique(w.res.snapshots, SnapshotID) && Unique(w.res.volumes, VolumeID) && NoVolume(w, v.id)
    requires w1.res == w.res.(volumes := w.res.volumes + [v])
    ensures var failure := LoadContent(w1.res, v.size, source, v.access, loadOK);
      if FromFitting(w, v, source) then failure == if source == NoSource || loadOK then None else Some(Unknown)
      else if FromMissing(w, v, source) then failure == Some(NotFound)
      else if FromUnready(w, source) then failure == Some(Unknown)
      else failure == Some(InvalidArgument)
  {
    hide IndexBy;
    match source {
      case FromSnapshot(id) =>
        if s :| s in w.res.snapshots && s.id == id {
          FoundByKey(w.res.snapshots, SnapshotID, s);
        }
      case FromVolume(id) =>
        PutThenDrop(w.res.volumes, VolumeID, v);
        FindPut(w.res.volumes, VolumeID, v, id);
        if u :| u in w.res.volumes && u.id == id {
          FoundByKey(w.res.volumes, VolumeID, u);
        }
      case _ =>
    }
  }

  /** Once stored, a volume is kept exactly when it needs no content or its source fits and can be copied. */
  lemma CreationAnswers(cfg: Config, w: World, c: Call, v: Volume, env: Env)
    requires c.CreateVolumeCall? && AskedFor(cfg, w, c, env, v) && env.filesOK && env.written
    requires Placed(cfg, w.res.volumes, c.size, c.kind, env.order, v.kind)
    requires Unique(w.res.snapshots, SnapshotID) && Unique(w.res.volumes, VolumeID)
    ensures var (w', reply) := Answer(cfg, w, c, env);
      var fits, w1 := FromFitting(w, v, c.source), WithStored(w, v, env);
      var filled := fits && (c.source == NoSource || env.loadOK);
      var removable := (v.access == BlockAccess ==> env.detachOK) && env.removeOK;
      && (reply == VolumeIs(env.uuid, c.size) <==> filled)
      && (reply == Failed(NotFound) <==> FromMissing(w, v, c.source))
      && (reply == Failed(Unknown) <==> FromUnready(w, c.source) || (fits && !filled))
      && (reply == Failed(InvalidArgument) <==>
            !fits && !FromMissing(w, v, c.source) && !FromUnready(w, c.source))
      && w' == if filled || !removable then w1 else TakenBack(w, w1, v, env.writtenAgain, env)
  {
    hide Allocate, Release, LoadContent, TakenBack, Placed, Unplaced, Untouched, IndexBy;
    hide FromFitting, FromMissing, FromUnready, Adding, SizeText;
    AllocationIs(cfg, w, v, c.kind, env);
    assert Find(w.res.volumes, VolumeName, c.name).None?;
    var w1 := WithStored(w, v, env);
    LoadIs(w, w1, v, c.source, env.loadOK);
    CleanUpIs(cfg, w, v, env);
    SourceCases(w, v, c.source);
  }

  lemma SourceCases(w: World, v: Volume, source: Source)
    requires Unique(w.res.snapshots, SnapshotID) && Unique(w.res.volumes, VolumeID) && NoVolume(w, v.id)
    ensures !(FromFitting(w, v, source) && FromMissing(w, v, source))
    ensures !(FromFitting(w, v, source) && FromUnready(w, source))
    ensures !(FromMissing(w, v, source) && FromUnready(w, source))
    ensures source == NoSource ==> FromFitting(w, v, source)
  {
    if source.FromSnapshot? {
      forall s, t | s in w.res.snapshots && t in w.res.snapshots && s.id == t.id ensures s == t {
        FoundByKey(w.res.snapshots, SnapshotID, s);
        FoundByKey(w.res.snapshots, SnapshotID, t);
      }
    }
  }

  // ---------- DeleteVolume ----------

  lemma DeleteAnswers(cfg: Config, w: World, v: Volume, env: Env)
    requires Unique(w.res.volumes, VolumeID) && v in w.res.volumes
    ensures var (w', reply) := Answer(cfg, w, DeleteVolumeCall(v.id), env);
      var valid, path := v.id != "" && !cfg.ephemeral, cfg.stateDir + "/" + v.id;
      var blocked := cfg.checkVolumeLifecycle && (v.attached || v.staged != [] || v.published != []);
      var removable := (v.access == BlockAccess ==> env.detachOK) && env.removeOK;
      && (reply == Failed(InvalidArgument) <==> !valid)
      && (reply == Failed(Internal) <==> valid && (blocked || (removable && !env.written)))
      && (reply == Failed(Unknown) <==> valid && !blocked && !removable)
      && (reply == Done <==> valid && !blocked && removable && env.written)
      && if valid && !blocked && removable then Deleted(w, w', v, path, env.written, env) else w' == w
  {
    hide IndexBy, Removing;
    FoundByKey(w.res.volumes, VolumeID, v);
  }

  /** The volume and its files are gone, the rest of the list is as it was, and the quota goes with them when
      that could be written. */
  ghost predicate Deleted(w: World, w': World, v: Volume, path: string, written: bool, env: Env) {
    && w' == w.(res := w.res.(volumes := w'.res.volumes), files := w.files - {path},
                file := if written then Some(w'.res) else w.file, clean := written,
                quotas := if written then Removing(w.quotas, path, env.quota) else w.quotas)
    && exists i :: 0 <= i < |w.res.volumes| && w.res.volumes[i] == v
         && w'.res.volumes == w.res.volumes[..i] + w.res.volumes[i + 1..]
  }

  lemma DeleteMissing(cfg: Config, w: World, id: string, env: Env)
    requires NoVolume(w, id)
    ensures Answer(cfg, w, DeleteVolumeCall(id), env)
         == (w, if id == "" || cfg.ephemeral then Failed(InvalidArgument) else Done)
  {
    hide IndexBy;
    NotStored(w, id);
  }

  // ---------- GetCapacity ----------

  /** What GetCapacity reports: the difference in int64 arithmetic, and no volume larger than allowed. */
  lemma CapacityAnswers(cfg: Config, vs: seq<Volume>, kind: string)
    ensures var (available, maximum) := ReportedCapacity(cfg, vs, kind);
      && available == (if cfg.capacity == map[] then cfg.maxVolumeSize
                       else Wrap64((if kind in cfg.capacity then cfg.capacity[kind] else 0) - KindSum(vs, kind)))
      && maximum <= available && maximum <= cfg.maxVolumeSize
      && (maximum == available || maximum == cfg.maxVolumeSize)
  {
    WrapSubtract(if kind in cfg.capacity then cfg.capacity[kind] else 0, KindSum(vs, kind));
  }
}
