// What every RPC of the driver does, as a function of the state, the request and the
// outcomes of the environment. Each RPC holds the driver's mutex, so it is one step.
module Driver {
  import opened Base
  import opened Lists
  import opened Sorting
  import opened State
  import opened ProjectIDs
  import opened ProjectsFile
  import opened Quota
  import opened Sizes

  datatype Config = Config(
    nodeID: string,
    stateDir: string,
    maxVolumeSize: int64,
    attachLimit: int64,
    capacity: map<string, int64>,
    ephemeral: bool,
    enableAttach: bool,
    enableVolumeExpansion: bool,
    maxExpansionSizeNode: int64,
    checkVolumeLifecycle: bool)

  /** Memory, the state file, the node's mount points, the paths of volumes and snapshot archives that
      exist, and the quota table with its own file. */
  datatype World = World(
    res: Resources,
    file: Option<Resources>,
    clean: bool,
    mounts: set<string>,
    files: set<string>,
    quotas: Quotas)

  datatype Capability = Block | Mount | NoAccessType

  datatype Source = NoSource | FromSnapshot(id: string) | FromVolume(id: string) | UnknownSource

  datatype PathKind = Missing | Directory | Device | OtherFile

  /** Outcomes the driver does not control: new IDs, map visiting order, and what succeeds. */
  datatype Env = Env(
    uuid: string,
    memberIDs: seq<string>,
    now: int,
    order: seq<string>,
    written: bool,
    writtenAgain: bool,
    writes: seq<bool>,
    filesOK: bool,
    remains: bool,
    archives: seq<bool>,
    removals: seq<bool>,
    loadOK: bool,
    detachOK: bool,
    removeOK: bool,
    loopOK: bool,
    targetOK: bool,
    checkOK: bool,
    mountOK: bool,
    unmountOK: bool,
    targetRemoved: bool,
    pathKind: PathKind,
    lost: set<string>,
    quota: Outcomes)

  /** A snapshot as a reply shows it. */
  datatype Listing = Listing(id: string, volID: string, creationTime: int, size: int64, ready: bool, groupID: string)

  datatype Reply =
    | Failed(code: Code)
    | Done
    | VolumeIs(id: string, capacity: int64)
    | ExpandedTo(capacity: int64)
    | SnapshotIs(snapshot: Listing)
    | GroupIs(id: string, members: seq<Listing>, creationTime: int, ready: bool)

  function PathOf(cfg: Config, id: string): string { cfg.stateDir + "/" + id }

  /** A snapshot's archive lies next to the volumes: it has the path of a volume with this ID. */
  function ArchiveOf(id: string): string { id + ".snap" }

  function ArchiveID(s: Snapshot): string { ArchiveOf(s.id) }

  function SnapshotPathOf(cfg: Config, id: string): string { PathOf(cfg, ArchiveOf(id)) }

  function EphemeralName(id: string): string { "ephemeral-" + id }

  const EPHEMERAL_SIZE: int64 := 100 * 1024 * 1024

  // ---------- store updates ----------

  function Saved(w: World, res: Resources, written: bool): World {
    w.(res := res, file := if written then Some(res) else w.file, clean := written)
  }

  function SaveVolume(w: World, v: Volume, written: bool): World {
    Saved(w, w.res.(volumes := Put(w.res.volumes, VolumeID, v)), written)
  }

  function RemoveVolume(w: World, id: string, written: bool): World {
    if Find(w.res.volumes, VolumeID, id).None? then w
    else Saved(w, w.res.(volumes := Drop(w.res.volumes, VolumeID, id)), written)
  }

  function SaveSnapshot(w: World, s: Snapshot, written: bool): World {
    Saved(w, w.res.(snapshots := Put(w.res.snapshots, SnapshotID, s)), written)
  }

  /** The archive goes first, stored snapshot or not; a failure to remove it is ignored. */
  function RemoveSnapshot(cfg: Config, w: World, id: string, removed: bool, written: bool): World {
    var w1 := if removed then w.(files := w.files - {SnapshotPathOf(cfg, id)}) else w;
    if Find(w.res.snapshots, SnapshotID, id).None? then w1
    else Saved(w1, w.res.(snapshots := Drop(w.res.snapshots, SnapshotID, id)), written)
  }

  /** What an attempt that failed leaves behind. */
  function Unfinished(w: World, path: string, remains: bool): World {
    if remains then w.(files := w.files + {path}) else w
  }

  function SaveGroup(w: World, g: Group, written: bool): World {
    Saved(w, w.res.(groups := Put(w.res.groups, GroupID, g)), written)
  }

  function RemoveGroup(w: World, id: string, written: bool): World {
    if Find(w.res.groups, GroupID, id).None? then w
    else Saved(w, w.res.(groups := Drop(w.res.groups, GroupID, id)), written)
  }

  // ---------- capacity ----------

  function KindSize(kind: string): Volume -> int { (v: Volume) => if v.kind == kind then v.size else 0 }

  function AttachedBit(v: Volume): int { if v.attached then 1 else 0 }

  /** The int64 sum of the sizes of all volumes of a kind. */
  function Used(vs: seq<Volume>, kind: string): int64 { Wrap64(SumBy(vs, KindSize(kind))) }

  function CapacityOf(cfg: Config, kind: string): int64 {
    if kind in cfg.capacity then cfg.capacity[kind] else 0
  }

  predicate FitsKind(cfg: Config, vs: seq<Volume>, kind: string, size: int64) {
    Wrap64(Used(vs, kind) + size) <= CapacityOf(cfg, kind)
  }

  /** First kind in visiting order that has room, "" if none has. */
  function PickKind(cfg: Config, vs: seq<Volume>, size: int64, order: seq<string>): string {
    if order == [] then ""
    else if FitsKind(cfg, vs, order[0], size) then order[0]
    else PickKind(cfg, vs, size, order[1..])
  }

  datatype Choice = Chosen(kind: string) | Refused(code: Code)

  function ChooseKind(cfg: Config, vs: seq<Volume>, size: int64, kind: string, order: seq<string>): Choice {
    if size > cfg.maxVolumeSize then Refused(OutOfRange)
    else if cfg.capacity == map[] then
      if kind == "" then Chosen("") else Refused(InvalidArgument)
    else
      var k := if kind == "" then PickKind(cfg, vs, size, order) else kind;
      if k == "" || !FitsKind(cfg, vs, k, size) then Refused(ResourceExhausted) else Chosen(k)
  }

  /** Available capacity and maximum volume size reported for a kind. */
  function ReportedCapacity(cfg: Config, vs: seq<Volume>, kind: string): (int64, int64) {
    var available := if cfg.capacity == map[] then cfg.maxVolumeSize
                     else Wrap64(CapacityOf(cfg, kind) - Used(vs, kind));
    (available, if cfg.maxVolumeSize > available then available else cfg.maxVolumeSize)
  }

  // ---------- createVolume and deleteVolume ----------

  function NewVolume(cfg: Config, id: string, name: string, size: int64, access: AccessType, ephemeral: bool,
                     kind: string): Volume
  {
    Volume(name, id, size, PathOf(cfg, id), access, "", "", ephemeral, "", kind, false, false, [], [])
  }

  ghost function Allocate(cfg: Config, w: World, id: string, name: string, size: int64, access: AccessType,
                          ephemeral: bool, kind: string, env: Env): (World, Option<Code>)
  {
    match ChooseKind(cfg, w.res.volumes, size, kind, env.order)
    case Refused(code) => (w, Some(code))
    case Chosen(k) =>
      if !env.filesOK then
        (Unfinished(w, PathOf(cfg, id), access == BlockAccess && env.remains), Some(Unknown))
      else
        var w1 := w.(files := w.files + {PathOf(cfg, id)});
        var w' := SaveVolume(w1, NewVolume(cfg, id, name, size, access, ephemeral, k), env.written);
        if !env.written then (w', Some(Internal))
        else (w'.(quotas := Adding(w.quotas, PathOf(cfg, id), SizeText(size as real), env.quota)), None)
  }

  predicate Removable(v: Volume, env: Env) { (v.access.BlockAccess? ==> env.detachOK) && env.removeOK }

  ghost function Release(cfg: Config, w: World, id: string, written: bool, env: Env): (World, Option<Code>) {
    match Find(w.res.volumes, VolumeID, id)
    case None => (w, None)
    case Some(v) =>
      if !Removable(v, env) then (w, Some(Unknown))
      else
        var w' := RemoveVolume(w.(files := w.files - {PathOf(cfg, id)}), id, written);
        if !written then (w', Some(Internal))
        else (w'.(quotas := Removing(w.quotas, PathOf(cfg, id), env.quota)), None)
  }

  /** Size, mode and existence checks before content is copied into a new volume. */
  function LoadContent(res: Resources, size: int64, source: Source, access: AccessType, loadOK: bool): Option<Code> {
    match source
    case NoSource => None
    case UnknownSource => Some(InvalidArgument)
    case FromSnapshot(id) =>
      (match Find(res.snapshots, SnapshotID, id)
       case None => Some(NotFound)
       case Some(s) =>
         if !s.ready then Some(Unknown)
         else if s.size > size then Some(InvalidArgument)
         else if !loadOK then Some(Unknown) else None)
    case FromVolume(id) =>
      (match Find(res.volumes, VolumeID, id)
       case None => Some(NotFound)
       case Some(v) =>
         if v.size > size || v.access != access then Some(InvalidArgument)
         else if !loadOK then Some(Unknown) else None)
  }

  // ---------- controller RPCs ----------

  function RequestedAccess(caps: seq<Capability>): AccessType { if Block in caps then BlockAccess else MountAccess }

  ghost function CreateVolume(cfg: Config, w: World, name: string, caps: seq<Capability>, size: int64,
                              kind: string, source: Source, env: Env): (World, Reply)
  {
    if cfg.ephemeral || name == "" || caps == [] || (Block in caps && Mount in caps) then (w, Failed(InvalidArgument))
    else
      match Find(w.res.volumes, VolumeName, name)
      case Some(v) => (w, AnswerExisting(v, size, source))
      case None =>
        FreshVolume(cfg, w, name, RequestedAccess(caps), size, kind, source, env)
  }

  /** Creates a volume and fills it; if filling fails it is deleted again. */
  ghost function FreshVolume(cfg: Config, w: World, name: string, access: AccessType, size: int64,
                             kind: string, source: Source, env: Env): (World, Reply)
  {
    var (w1, failure) := Allocate(cfg, w, env.uuid, name, size, access, false, kind, env);
    if failure.Some? then (w1, Failed(failure.value))
    else
      var load := LoadContent(w1.res, size, source, access, env.loadOK);
      if load.Some? then (Release(cfg, w1, env.uuid, env.writtenAgain, env).0, Failed(load.value))
      else (w1, VolumeIs(env.uuid, size))
  }

  /** Reply to a request naming an existing volume. */
  function AnswerExisting(v: Volume, size: int64, source: Source): Reply {
    if v.size < size then Failed(AlreadyExists)
    else
      match source
      case NoSource => VolumeIs(v.id, v.size)
      case FromSnapshot(id) =>
        if v.parentSnapID != "" && v.parentSnapID != id then Failed(AlreadyExists) else VolumeIs(v.id, v.size)
      case FromVolume(id) =>
        if v.parentVolID != id then Failed(AlreadyExists) else VolumeIs(v.id, v.size)
      case UnknownSource => Failed(InvalidArgument)
  }

  predicate InUse(v: Volume) { v.published != [] || v.staged != [] }

  ghost function DeleteVolume(cfg: Config, w: World, id: string, env: Env): (World, Reply) {
    if id == "" || cfg.ephemeral then (w, Failed(InvalidArgument))
    else
      match Find(w.res.volumes, VolumeID, id)
      case None => (w, Done)
      case Some(v) =>
        if (v.attached || InUse(v)) && cfg.checkVolumeLifecycle then (w, Failed(Internal))
        else
          var (w', failure) := Release(cfg, w, id, env.written, env);
          (w', if failure.Some? then Failed(failure.value) else Done)
  }

  ghost function ControllerPublish(cfg: Config, w: World, id: string, nodeID: string, hasCap: bool, readonly: bool,
                                   env: Env): (World, Reply)
  {
    if !cfg.enableAttach then (w, Failed(Unimplemented))
    else if id == "" || nodeID == "" || !hasCap then (w, Failed(InvalidArgument))
    else if nodeID != cfg.nodeID then (w, Failed(NotFound))
    else
      match Find(w.res.volumes, VolumeID, id)
      case None => (w, Failed(NotFound))
      case Some(v) =>
        if v.attached then (w, if readonly != v.readOnlyAttach then Failed(AlreadyExists) else Done)
        else if cfg.attachLimit > 0 && SumBy(w.res.volumes, AttachedBit) >= cfg.attachLimit then
          (w, Failed(ResourceExhausted))
        else
          (SaveVolume(w, v.(attached := true, readOnlyAttach := readonly), env.written),
           if env.written then Done else Failed(Internal))
  }

  ghost function ControllerUnpublish(cfg: Config, w: World, id: string, nodeID: string, env: Env): (World, Reply) {
    if !cfg.enableAttach then (w, Failed(Unimplemented))
    else if id == "" then (w, Failed(InvalidArgument))
    else if nodeID != "" && nodeID != cfg.nodeID then (w, Failed(NotFound))
    else
      match Find(w.res.volumes, VolumeID, id)
      case None => (w, Done)
      case Some(v) =>
        if InUse(v) && cfg.checkVolumeLifecycle then (w, Failed(Internal))
        else (SaveVolume(w, v.(attached := false), env.written), if env.written then Done else Failed(Internal))
  }

  ghost function ControllerExpand(cfg: Config, w: World, id: string, capRange: Option<int64>, env: Env): (World,
                                  Reply)
  {
    if !cfg.enableVolumeExpansion then (w, Failed(Unimplemented))
    else if id == "" || capRange.None? then (w, Failed(InvalidArgument))
    else if capRange.value > cfg.maxVolumeSize then (w, Failed(OutOfRange))
    else
      match Find(w.res.volumes, VolumeID, id)
      case None => (w, Failed(NotFound))
      case Some(v) =>
        if v.size >= capRange.value then (w, ExpandedTo(v.size))
        else (SaveVolume(w, v.(size := capRange.value), env.written),
              if env.written then ExpandedTo(capRange.value) else Failed(Internal))
  }

  // ---------- snapshots ----------

  function ListingOf(s: Snapshot): Listing { Listing(s.id, s.volID, s.creationTime, s.size, s.ready, s.groupID) }

  ghost function CreateSnapshot(cfg: Config, w: World, name: string, volID: string, env: Env): (World, Reply) {
    if cfg.ephemeral || name == "" || volID == "" then (w, Failed(InvalidArgument))
    else
      match Find(w.res.snapshots, SnapshotName, name)
      case Some(s) =>
        (w, if s.volID == volID then SnapshotIs(ListingOf(s).(groupID := "")) else Failed(AlreadyExists))
      case None =>
        match Find(w.res.volumes, VolumeID, volID)
        case None => (w, Failed(NotFound))
        case Some(v) =>
          var path := SnapshotPathOf(cfg, env.uuid);
          if !env.filesOK then (Unfinished(w, path, env.remains), Failed(Unknown))
          else
            var s := Snapshot(name, env.uuid, volID, path, env.now, v.size, true, "");
            (SaveSnapshot(w.(files := w.files + {path}), s, env.written),
             if env.written then SnapshotIs(ListingOf(s)) else Failed(Internal))
  }

  /** The guard against deleting members of a group reads a lookup error and never applies. */
  ghost function DeleteSnapshot(cfg: Config, w: World, id: string, env: Env): (World, Reply) {
    if id == "" || cfg.ephemeral then (w, Failed(InvalidArgument))
    else (RemoveSnapshot(cfg, w, id, Outcome(env.removals, 0), env.written),
          if Find(w.res.snapshots, SnapshotID, id).None? || env.written then Done else Failed(Internal))
  }

  // ---------- group snapshots ----------

  function MemberName(group: string, volID: string): string { group + "-" + volID }

  function MemberOf(cfg: Config, name: string, gid: string, v: Volume, volID: string, id: string, now: int): Snapshot {
    Snapshot(MemberName(name, volID), id, volID, SnapshotPathOf(cfg, id), now, v.size, true, gid)
  }

  /** Makes the snapshot of the i-th source volume. A write error is ignored. */
  ghost function AddMember(cfg: Config, w: World, name: string, source: string, i: nat, env: Env): (World, Option<Code>)
    requires i < |env.memberIDs|
  {
    match Find(w.res.volumes, VolumeID, source)
    case None => (w, Some(NotFound))
    case Some(v) =>
      var path := SnapshotPathOf(cfg, env.memberIDs[i]);
      if !Outcome(env.archives, i) then (Unfinished(w, path, env.remains), Some(Unknown))
      else
        var s := MemberOf(cfg, name, env.uuid, v, source, env.memberIDs[i], env.now);
        (SaveSnapshot(w.(files := w.files + {path}), s, Outcome(env.writes, i)), None)
  }

  /** Makes the snapshots of sources[i..]; a failure leaves the members made so far. */
  ghost function AddMembers(cfg: Config, w: World, name: string, sources: seq<string>, i: nat, env: Env): (World,
                            Option<Code>)
    requires i <= |sources| <= |env.memberIDs|
    decreases |sources| - i
  {
    if i == |sources| then (w, None)
    else
      var (w', failure) := AddMember(cfg, w, name, sources[i], i, env);
      if failure.Some? then (w', failure) else AddMembers(cfg, w', name, sources, i + 1, env)
  }

  /** Members of a group in list order, None when one is gone. */
  function Members(snapshots: seq<Snapshot>, ids: seq<string>): Option<seq<Snapshot>> {
    if ids == [] then Some([])
    else
      match Members(snapshots, ids[..|ids| - 1])
      case None => None
      case Some(front) =>
        match Find(snapshots, SnapshotID, ids[|ids| - 1])
        case None => None
        case Some(s) => Some(front + [s])
  }

  function Listings(members: seq<Snapshot>, withIDs: bool): (r: seq<Listing>)
    ensures |r| == |members|
  {
    seq(|members|, i requires 0 <= i < |members| =>
      var l := ListingOf(members[i]);
      if withIDs then l else l.(id := "", volID := ""))
  }

  predicate AllReady(members: seq<Snapshot>) { forall i :: 0 <= i < |members| ==> members[i].ready }

  /** Comparing the source lists sorts the stored one where it is, unless the lengths differ. */
  function SortSources(w: World, i: nat, sources: seq<string>): World
    requires i < |w.res.groups|
  {
    var g := w.res.groups[i];
    var g' := g.(sourceVolumeIDs := SortedUnlessLengthDiffers(g.sourceVolumeIDs, sources));
    w.(res := w.res.(groups := w.res.groups[i := g']))
  }

  function SortMembers(w: World, i: nat, ids: seq<string>): World
    requires i < |w.res.groups|
  {
    var g := w.res.groups[i];
    var g' := g.(snapshotIDs := SortedUnlessLengthDiffers(g.snapshotIDs, ids));
    w.(res := w.res.(groups := w.res.groups[i := g']))
  }

  ghost function CreateGroup(cfg: Config, w: World, name: string, sources: seq<string>, env: Env): (World, Reply)
    requires |sources| <= |env.memberIDs|
  {
    if name == "" || sources == [] then (w, Failed(InvalidArgument))
    else
      var i := IndexBy(w.res.groups, GroupName, name);
      if i < |w.res.groups| then KnownGroup(cfg, w, i, sources) else NewGroup(cfg, w, name, sources, env)
  }

  function MembersReply(id: string, ms: Option<seq<Snapshot>>, withIDs: bool, creationTime: int, ready: bool): Reply {
    match ms
    case None => Failed(NotFound)
    case Some(found) => GroupIs(id, Listings(found, withIDs), creationTime, ready)
  }

  ghost function KnownGroup(cfg: Config, w: World, i: nat, sources: seq<string>): (World, Reply)
    requires i < |w.res.groups|
  {
    var g := w.res.groups[i];
    var w' := SortSources(w, i, sources);
    if multiset(g.sourceVolumeIDs) != multiset(sources) then (w', Failed(AlreadyExists))
    else
      var ms := Members(w.res.snapshots, g.snapshotIDs);
      (w', MembersReply(g.id, ms, false, g.creationTime, ms.Some? && AllReady(ms.value)))
  }

  ghost function NewGroup(cfg: Config, w: World, name: string, sources: seq<string>, env: Env): (World, Reply)
    requires |sources| <= |env.memberIDs|
  {
    var (w1, failure) := AddMembers(cfg, w, name, sources, 0, env);
    if failure.Some? then (w1, Failed(failure.value))
    else
      var ids := env.memberIDs[..|sources|];
      var w2 := SaveGroup(w1, Group(name, env.uuid, ids, sources, env.now, true), env.written);
      if !env.written then (w2, Failed(Internal))
      else (w2, GroupIs(env.uuid, NewListings(w.res.volumes, sources, ids, env), env.now, true))
  }

  /** The reply to a successful group creation describes each member from its volume. */
  function NewListing(vs: seq<Volume>, source: string, id: string, env: Env): Listing {
    var size: int64 := match Find(vs, VolumeID, source) { case Some(v) => v.size case None => 0 };
    Listing(id, source, env.now, size, true, env.uuid)
  }

  function NewListings(vs: seq<Volume>, sources: seq<string>, ids: seq<string>, env: Env): seq<Listing>
    requires |sources| == |ids|
  {
    seq(|ids|, i requires 0 <= i < |ids| => NewListing(vs, sources[i], ids[i], env))
  }

  ghost function DropAt(cfg: Config, w: World, ids: seq<string>, i: nat, env: Env): World
    requires i < |ids|
  {
    RemoveSnapshot(cfg, w, ids[i], Outcome(env.removals, i), Outcome(env.writes, i))
  }

  /** Deletes ids[i..]; the first write that fails stops it. */
  ghost function DropMembers(cfg: Config, w: World, ids: seq<string>, i: nat, env: Env): (World, bool)
    requires i <= |ids|
    decreases |ids| - i
  {
    if i == |ids| then (w, true)
    else
      var w' := DropAt(cfg, w, ids, i, env);
      if Find(w.res.snapshots, SnapshotID, ids[i]).Some? && !Outcome(env.writes, i) then (w', false)
      else DropMembers(cfg, w', ids, i + 1, env)
  }

  ghost function DeleteGroup(cfg: Config, w: World, id: string, env: Env): (World, Reply) {
    if id == "" then (w, Failed(InvalidArgument))
    else
      match Find(w.res.groups, GroupID, id)
      case None => (w, Done)
      case Some(g) =>
        var (w1, ok) := DropMembers(cfg, w, g.snapshotIDs, 0, env);
        if !ok then (w1, Failed(Internal))
        else (RemoveGroup(w1, id, env.written), if env.written then Done else Failed(Internal))
  }

  ghost function GetGroup(cfg: Config, w: World, id: string, ids: seq<string>): (World, Reply) {
    if id == "" then (w, Failed(InvalidArgument))
    else
      var i := IndexBy(w.res.groups, GroupID, id);
      if i == |w.res.groups| then (w, Failed(NotFound)) else ReadGroup(w, i, ids)
  }

  ghost function ReadGroup(w: World, i: nat, ids: seq<string>): (World, Reply)
    requires i < |w.res.groups|
  {
    var w' := SortMembers(w, i, ids);
    var g := w'.res.groups[i];
    if multiset(w.res.groups[i].snapshotIDs) != multiset(ids) then (w', Failed(InvalidArgument))
    else (w', MembersReply(g.id, Members(w.res.snapshots, g.snapshotIDs), true, g.creationTime, g.ready))
  }

  // ---------- node RPCs ----------

  ghost function NodeStage(cfg: Config, w: World, id: string, staging: string, hasCap: bool, env: Env): (World, Reply) {
    if id == "" || staging == "" || !hasCap then (w, Failed(InvalidArgument))
    else
      match Find(w.res.volumes, VolumeID, id)
      case None => (w, Failed(NotFound))
      case Some(v) =>
        if cfg.enableAttach && !v.attached then (w, Failed(Internal))
        else if staging in v.staged then (w, Done)
        else if v.staged != [] then (w, Failed(FailedPrecondition))
        else
          (SaveVolume(w, v.(staged := v.staged + [staging]), env.written),
           if env.written then Done else Failed(Internal))
  }

  ghost function NodeUnstage(cfg: Config, w: World, id: string, staging: string, env: Env): (World, Reply) {
    if id == "" || staging == "" then (w, Failed(InvalidArgument))
    else
      match Find(w.res.volumes, VolumeID, id)
      case None => (w, Failed(NotFound))
      case Some(v) =>
        if staging !in v.staged then (w, Done)
        else if v.published != [] then (w, Failed(Internal))
        else
          (SaveVolume(w, v.(staged := Drop(v.staged, Self, staging)), env.written),
           if env.written then Done else Failed(Internal))
  }

  predicate WantsEphemeral(cfg: Config, context: string) { context == "true" || (context == "" && cfg.ephemeral) }

  predicate MountedElsewhere(v: Volume, target: string) {
    exists i :: 0 <= i < |v.published| && v.published[i] != target
  }

  ghost function NodePublish(cfg: Config, w: World, id: string, target: string, staging: string,
                             cap: Option<Capability>,
                             singleWriter: bool, context: string, kind: string, env: Env): (World, Reply)
  {
    if cap.None? || id == "" || target == "" then (w, Failed(InvalidArgument))
    else
      var ephemeral := WantsEphemeral(cfg, context);
      var (w1, failure) :=
        if ephemeral && Find(w.res.volumes, VolumeName, EphemeralName(id)).None?
        then Allocate(cfg, w, id, EphemeralName(id), EPHEMERAL_SIZE, MountAccess, true, kind, env)
        else (w, None);
      if failure.Some? then (w1, Failed(failure.value))
      else Publish(cfg, w1, id, target, staging, cap.value, singleWriter, ephemeral, env)
  }

  /** Access mode and staging checks before publishing. */
  function PublishRefusal(v: Volume, target: string, staging: string, singleWriter: bool,
                          ephemeral: bool): Option<Code>
  {
    if singleWriter && MountedElsewhere(v, target) then Some(FailedPrecondition)
    else if !ephemeral && v.staged == [] then Some(FailedPrecondition)
    else if !ephemeral && staging !in v.staged then Some(InvalidArgument)
    else None
  }

  /** Answer that ends a publish call before the volume is mounted, if there is one. The directory to be
      mounted, or the block file that has the loop device, may be gone. */
  function MountReply(mounts: set<string>, present: bool, access: AccessType, cap: Capability, target: string,
                      env: Env): Option<Reply>
  {
    if (cap == Block && access != BlockAccess) || (cap == Mount && access != MountAccess) then
      Some(Failed(InvalidArgument))
    else if cap == Block && (!present || !env.loopOK || !env.targetOK) then Some(Failed(Unknown))
    else if cap == NoAccessType then None
    else if !env.checkOK then Some(Failed(Unknown))
    else if target in mounts then Some(Done)
    else if !present || !env.mountOK then Some(Failed(Unknown))
    else None
  }

  /** The bind mount of the volume's directory is tried and fails. */
  predicate MountFails(mounts: set<string>, present: bool, access: AccessType, cap: Capability, target: string,
                       env: Env)
  {
    cap == Mount && access == MountAccess && env.checkOK && target !in mounts && (!present || !env.mountOK)
  }

  /** When that happens to an ephemeral volume its directory is removed, while the volume stays stored. */
  predicate RemovesDirectory(mounts: set<string>, present: bool, v: Volume, cap: Capability, target: string,
                             env: Env)
  {
    v.ephemeral && MountFails(mounts, present, v.access, cap, target, env) && env.removeOK
  }

  /** Publishing a volume that is expected to exist. */
  ghost function Publish(cfg: Config, w: World, id: string, target: string, staging: string, cap: Capability,
                         singleWriter: bool, ephemeral: bool, env: Env): (World, Reply) {
    match Find(w.res.volumes, VolumeID, id)
    case None => (w, Failed(NotFound))
    case Some(v) =>
      var refusal, present := PublishRefusal(v, target, staging, singleWriter, ephemeral), PathOf(cfg, id) in w.files;
      var early := MountReply(w.mounts, present, v.access, cap, target, env);
      if refusal.Some? then (w, Failed(refusal.value))
      else if early.Some? then
        (if RemovesDirectory(w.mounts, present, v, cap, target, env) then w.(files := w.files - {PathOf(cfg, id)})
         else w,
         early.value)
      else
        var w1 := if cap == NoAccessType then w else w.(mounts := w.mounts + {target});
        (SaveVolume(w1, v.(nodeID := cfg.nodeID, published := v.published + [target]), env.writtenAgain),
         if env.writtenAgain then Done else Failed(Internal))
  }

  ghost function NodeUnpublish(cfg: Config, w: World, id: string, target: string, env: Env): (World, Reply) {
    if id == "" || target == "" then (w, Failed(InvalidArgument))
    else
      match Find(w.res.volumes, VolumeID, id)
      case None => (w, Failed(NotFound))
      case Some(v) =>
        if target !in v.published then (w, Done)
        else if !env.checkOK then (w, Failed(Unknown))
        else if target in w.mounts && !env.unmountOK then (w, Failed(Unknown))
        else
          var w1 := w.(mounts := w.mounts - {target});
          if !env.targetRemoved then (w1, Failed(Unknown))
          else if v.ephemeral then
            var (w2, failure) := Release(cfg, w1, id, env.written, env);
            (w2, if failure.Some? then Failed(failure.value) else Done)
          else
            (SaveVolume(w1, v.(published := Drop(v.published, Self, target)), env.written),
             if env.written then Done else Failed(Internal))
  }

  ghost function NodeExpand(cfg: Config, w: World, id: string, path: string, capRange: Option<int64>,
                            env: Env): (World, Reply)
  {
    if !cfg.enableVolumeExpansion then (w, Failed(Unimplemented))
    else if id == "" then (w, Failed(InvalidArgument))
    else
      match Find(w.res.volumes, VolumeID, id)
      case None => (w, Failed(NotFound))
      case Some(v) =>
        if path == "" || capRange.None? then (w, Failed(InvalidArgument))
        else if capRange.value > cfg.maxExpansionSizeNode then (w, Failed(OutOfRange))
        else if !(env.pathKind == Directory && v.access == MountAccess)
             && !(env.pathKind == Device && v.access == BlockAccess) then (w, Failed(InvalidArgument))
        else
          var (quotas, ok) := Resizing(w.quotas, PathOf(cfg, id), SizeText(capRange.value as real), env.quota);
          (w.(quotas := quotas), if ok then Done else Failed(Unknown))
  }

  /** A start of the driver process: memory is what the state file holds, the quota table what the
      projects file reads as while its directories exist. */
  function Start(file: Option<Resources>, mounts: set<string>, files: set<string>, text: string, o: Outcomes): World {
    World(if file.Some? then file.value else EMPTY, file, true, mounts, files, Started(text, files, o))
  }

  /** The process ends and starts again; the node may have lost files meanwhile. */
  function Restart(w: World, env: Env): World {
    Start(w.file, w.mounts, w.files - env.lost, w.quotas.text, env.quota)
  }

  // ---------- steps and runs ----------

  datatype Call =
    | CreateVolumeCall(name: string, caps: seq<Capability>, size: int64, kind: string, source: Source)
    | DeleteVolumeCall(id: string)
    | ControllerPublishCall(id: string, nodeID: string, hasCap: bool, readonly: bool)
    | ControllerUnpublishCall(id: string, nodeID: string)
    | ControllerExpandCall(id: string, capRange: Option<int64>)
    | CreateSnapshotCall(name: string, volID: string)
    | DeleteSnapshotCall(id: string)
    | CreateGroupCall(name: string, sources: seq<string>)
    | DeleteGroupCall(id: string)
    | GetGroupCall(id: string, ids: seq<string>)
    | NodeStageCall(id: string, staging: string, hasCap: bool)
    | NodeUnstageCall(id: string, staging: string)
    | NodePublishCall(id: string, target: string, staging: string, cap: Option<Capability>, singleWriter: bool,
                      context: string, kind: string)
    | NodeUnpublishCall(id: string, target: string)
    | NodeExpandCall(id: string, path: string, capRange: Option<int64>)
    | RestartCall

  datatype Event = Event(call: Call, env: Env)

  /** An ID that nothing in the state has or mentions, also in the name of a file. */
  ghost predicate NewID(res: Resources, id: string) {
    && Absent(res.volumes, VolumeID, id) && Absent(res.volumes, VolumeID, ArchiveOf(id))
    && Absent(res.snapshots, SnapshotID, id)
    && Absent(res.groups, GroupID, id)
    && forall i :: 0 <= i < |res.groups| ==> id !in res.groups[i].snapshotIDs
  }

  /** UUIDs are new in memory and on disk, also as names of files, and differ from each other, the capacity map is
      visited completely, and a project ID is left. */
  ghost predicate Possible(cfg: Config, w: World, e: Event) {
    && HasFree(TableOf(w.quotas))
    && NewID(w.res, e.env.uuid) && Absent(w.res.snapshots, ArchiveID, e.env.uuid)
    && (w.file.Some? ==> NewID(w.file.value, e.env.uuid))
    && (forall i :: 0 <= i < |e.env.memberIDs| ==>
          NewID(w.res, e.env.memberIDs[i]) && (w.file.Some? ==> NewID(w.file.value, e.env.memberIDs[i])))
    && (forall i, j :: 0 <= i < j < |e.env.memberIDs| ==> e.env.memberIDs[i] != e.env.memberIDs[j])
    && (e.call.CreateGroupCall? ==> |e.call.sources| <= |e.env.memberIDs|)
    && (forall k :: k in e.env.order <==> k in cfg.capacity)
  }

  /** Meant for possible events; without enough IDs for its members no group is made. */
  ghost function StepReply(cfg: Config, w: World, e: Event): (World, Reply) {
    var env := e.env;
    match e.call
    case CreateVolumeCall(name, caps, size, kind, source) => CreateVolume(cfg, w, name, caps, size, kind, source, env)
    case DeleteVolumeCall(id) => DeleteVolume(cfg, w, id, env)
    case ControllerPublishCall(id, nodeID, hasCap, readonly) =>
      ControllerPublish(cfg, w, id, nodeID, hasCap, readonly, env)
    case ControllerUnpublishCall(id, nodeID) => ControllerUnpublish(cfg, w, id, nodeID, env)
    case ControllerExpandCall(id, capRange) => ControllerExpand(cfg, w, id, capRange, env)
    case CreateSnapshotCall(name, volID) => CreateSnapshot(cfg, w, name, volID, env)
    case DeleteSnapshotCall(id) => DeleteSnapshot(cfg, w, id, env)
    case CreateGroupCall(name, sources) =>
      if |sources| <= |env.memberIDs| then CreateGroup(cfg, w, name, sources, env) else (w, Failed(Internal))
    case DeleteGroupCall(id) => DeleteGroup(cfg, w, id, env)
    case GetGroupCall(id, ids) => GetGroup(cfg, w, id, ids)
    case NodeStageCall(id, staging, hasCap) => NodeStage(cfg, w, id, staging, hasCap, env)
    case NodeUnstageCall(id, staging) => NodeUnstage(cfg, w, id, staging, env)
    case NodePublishCall(id, target, staging, cap, singleWriter, context, kind) =>
      NodePublish(cfg, w, id, target, staging, cap, singleWriter, context, kind, env)
    case NodeUnpublishCall(id, target) => NodeUnpublish(cfg, w, id, target, env)
    case NodeExpandCall(id, path, capRange) => NodeExpand(cfg, w, id, path, capRange, env)
    case RestartCall => (Restart(w, env), Done)
  }

  ghost function Step(cfg: Config, w: World, e: Event): World { StepReply(cfg, w, e).0 }

  ghost predicate PossibleRun(cfg: Config, w: World, es: seq<Event>)
    decreases |es|
  {
    es == [] || (Possible(cfg, w, es[0]) && PossibleRun(cfg, Step(cfg, w, es[0]), es[1..]))
  }

  ghost function Run(cfg: Config, w: World, es: seq<Event>): World
    decreases |es|
  {
    if es == [] then w else Run(cfg, Step(cfg, w, es[0]), es[1..])
  }

  /** A driver just started on a node with nothing on it, with a quota table or without. */
  ghost predicate Initial(w: World) {
    && w.res == EMPTY && w.file.None? && w.clean && w.mounts == {} && w.files == {}
    && (w.quotas == Enabled(map[], Padding(), true) || w.quotas == Disabled(""))
  }

  /** That is what the first start on an empty node makes. */
  lemma FirstStart(o: Outcomes)
    ensures Initial(Start(None, {}, {}, "", o))
  {
    hide IsOrder;
    StartedReads("", {}, o);
    assert ReadTable("", {}, o) == map[];
    NothingToVisit(o.visit(map[]), map[]);
    RestoreEnds(Enabled(map[], "", false), [], {}, o);
    assert Records([], map[]) == "";
  }
}
