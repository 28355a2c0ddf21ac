// The files of the node: which paths exist, which ones stored volumes and snapshots need, and what each
// operation on the lists does to both.
module NodeFiles {
  import opened Base
  import opened Lists
  import opened State
  import opened Quota
  import opened Driver
  import opened Effects
  import opened Soundness

  /** The paths below the state directory that belong to the keys of a list. */
  ghost function PathsBy<T>(cfg: Config, s: seq<T>, key: T -> string): set<string> {
    set i | 0 <= i < |s| :: PathOf(cfg, key(s[i]))
  }

  /** Where the stored volumes have their directories and block files. */
  ghost function Paths(cfg: Config, vs: seq<Volume>): set<string> { PathsBy(cfg, vs, VolumeID) }

  /** Where the stored snapshots have their archives. */
  ghost function Archives(cfg: Config, ss: seq<Snapshot>): set<string> { PathsBy(cfg, ss, ArchiveID) }

  /** What exists, and what is needed. */
  datatype Disk = Disk(files: set<string>, backing: set<string>, archives: set<string>)

  ghost function DiskOf(cfg: Config, w: World): Disk {
    Disk(w.files, Paths(cfg, w.res.volumes), Archives(cfg, w.res.snapshots))
  }

  /** Every stored volume has its directory or block file. */
  ghost predicate Backed(d: Disk) { d.backing <= d.files }

  /** Every stored snapshot has its archive. */
  ghost predicate Archived(d: Disk) { d.archives <= d.files }

  /** Everything that exists belongs to a stored volume or snapshot. */
  ghost predicate Housed(d: Disk) { d.files <= d.backing + d.archives }

  // ---------- paths ----------

  lemma PathTellsID(cfg: Config, a: string, b: string)
    ensures PathOf(cfg, a) == PathOf(cfg, b) ==> a == b
  {
    var n := |cfg.stateDir + "/"|;
    assert PathOf(cfg, a)[n..] == a && PathOf(cfg, b)[n..] == b;
  }

  lemma ArchiveTellsID(a: string, b: string)
    ensures ArchiveOf(a) == ArchiveOf(b) ==> a == b
  {
    assert ArchiveOf(a)[..|a|] == a && ArchiveOf(b)[..|b|] == b;
  }

  lemma PathInIff<T>(cfg: Config, s: seq<T>, key: T -> string, k: string)
    ensures PathOf(cfg, k) in PathsBy(cfg, s, key) <==> Find(s, key, k).Some?
  {
    hide PathOf, IndexBy;
    if PathOf(cfg, k) in PathsBy(cfg, s, key) {
      var i :| 0 <= i < |s| && PathOf(cfg, key(s[i])) == PathOf(cfg, k);
      PathTellsID(cfg, key(s[i]), k);
    }
  }

  /** Replacing the record of a key keeps the paths where they show the same, adding one adds its path. */
  lemma PathsPut<T>(cfg: Config, s: seq<T>, key: T -> string, x: T, shown: T -> string)
    requires Find(s, key, key(x)).Some? ==> shown(Find(s, key, key(x)).value) == shown(x)
    ensures PathsBy(cfg, Put(s, key, x), shown) == PathsBy(cfg, s, shown) + {PathOf(cfg, shown(x))}
  {
    hide PathOf, IndexBy;
    var t, k := Put(s, key, x), IndexBy(s, key, key(x));
    assert t[k] == x;
    assert forall i :: 0 <= i < |s| ==> shown(t[i]) == shown(s[i]);
    forall p | p in PathsBy(cfg, s, shown) ensures p in PathsBy(cfg, t, shown) {
      var i :| 0 <= i < |s| && PathOf(cfg, shown(s[i])) == p;
      assert PathOf(cfg, shown(t[i])) == p;
    }
    assert PathOf(cfg, shown(t[k])) in PathsBy(cfg, t, shown);
  }

  lemma PathsDrop<T>(cfg: Config, s: seq<T>, key: T -> string, k: string, shown: T -> string, path: string)
    requires Unique(s, key)
    requires forall i :: 0 <= i < |s| ==> (key(s[i]) == k <==> shown(s[i]) == path)
    ensures PathsBy(cfg, Drop(s, key, k), shown) == PathsBy(cfg, s, shown) - {PathOf(cfg, path)}
  {
    hide PathOf, IndexBy;
    var t, n := Drop(s, key, k), IndexBy(s, key, k);
    FindDropped(s, key, k);
    forall p | p in PathsBy(cfg, t, shown) ensures p in PathsBy(cfg, s, shown) && p != PathOf(cfg, path) {
      var j :| 0 <= j < |t| && PathOf(cfg, shown(t[j])) == p;
      var i := DropMember(s, key, k, j);
      assert key(t[j]) != k;
      PathTellsID(cfg, shown(t[j]), path);
    }
    forall p | p in PathsBy(cfg, s, shown) && p != PathOf(cfg, path) ensures p in PathsBy(cfg, t, shown) {
      var i :| 0 <= i < |s| && PathOf(cfg, shown(s[i])) == p;
      assert t[if i < n then i else i - 1] == s[i];
    }
  }

  lemma PathsUpdate(cfg: Config, vs: seq<Volume>, v: Volume)
    requires Find(vs, VolumeID, v.id).Some?
    ensures Paths(cfg, Put(vs, VolumeID, v)) == Paths(cfg, vs)
  {
    PathsPut(cfg, vs, VolumeID, v, VolumeID);
    PathInIff(cfg, vs, VolumeID, v.id);
  }

  lemma ArchivesPut(cfg: Config, ss: seq<Snapshot>, s: Snapshot)
    ensures Archives(cfg, Put(ss, SnapshotID, s)) == Archives(cfg, ss) + {SnapshotPathOf(cfg, s.id)}
  {
    hide PathOf, IndexBy;
    PathsPut(cfg, ss, SnapshotID, s, ArchiveID);
  }

  lemma ArchivesDrop(cfg: Config, ss: seq<Snapshot>, id: string)
    requires Unique(ss, SnapshotID)
    ensures Archives(cfg, Drop(ss, SnapshotID, id)) == Archives(cfg, ss) - {SnapshotPathOf(cfg, id)}
  {
    hide PathOf, IndexBy;
    forall i | 0 <= i < |ss| ensures SnapshotID(ss[i]) == id <==> ArchiveID(ss[i]) == ArchiveOf(id) {
      ArchiveTellsID(ss[i].id, id);
    }
    PathsDrop(cfg, ss, SnapshotID, id, ArchiveID, ArchiveOf(id));
  }

  // ---------- volumes ----------

  lemma AllocateDisk(cfg: Config, w: World, id: string, name: string, size: int64, access: AccessType,
                     ephemeral: bool, kind: string, env: Env)
    ensures var d, path := DiskOf(cfg, w), PathOf(cfg, id);
      DiskOf(cfg, Allocate(cfg, w, id, name, size, access, ephemeral, kind, env).0) ==
        if Stores(cfg, w, size, kind, env) then Disk(d.files + {path}, d.backing + {path}, d.archives)
        else if ChooseKind(cfg, w.res.volumes, size, kind, env.order).Chosen? && access == BlockAccess && env.remains
        then d.(files := d.files + {path})
        else d
  {
    hide Adding, Put, PathsBy, PathOf, IndexBy;
    match ChooseKind(cfg, w.res.volumes, size, kind, env.order) {
      case Refused(_) =>
      case Chosen(k) =>
        PathsPut(cfg, w.res.volumes, VolumeID, NewVolume(cfg, id, name, size, access, ephemeral, k), VolumeID);
    }
  }

  /** The deletion gets as far as removing the directory. */
  predicate Releases(vs: seq<Volume>, id: string, env: Env) {
    Find(vs, VolumeID, id).Some? && Removable(Find(vs, VolumeID, id).value, env)
  }

  lemma ReleaseDisk(cfg: Config, w: World, id: string, written: bool, env: Env)
    requires Unique(w.res.volumes, VolumeID)
    ensures var d, path := DiskOf(cfg, w), PathOf(cfg, id);
      DiskOf(cfg, Release(cfg, w, id, written, env).0) ==
        if Releases(w.res.volumes, id, env) then Disk(d.files - {path}, d.backing - {path}, d.archives) else d
  {
    hide Removing, Drop, PathsBy, PathOf, IndexBy;
    PathsDrop(cfg, w.res.volumes, VolumeID, id, VolumeID, id);
  }

  lemma UpdateDisk(cfg: Config, w: World, v: Volume, written: bool)
    requires Find(w.res.volumes, VolumeID, v.id).Some?
    ensures DiskOf(cfg, SaveVolume(w, v, written)) == DiskOf(cfg, w)
  {
    hide Put, Paths, Archives;
    PathsUpdate(cfg, w.res.volumes, v);
  }

  // ---------- snapshots ----------

  lemma SaveSnapshotDisk(cfg: Config, w: World, s: Snapshot, written: bool)
    ensures var d := DiskOf(cfg, w);
      DiskOf(cfg, SaveSnapshot(w, s, written)) == d.(archives := d.archives + {SnapshotPathOf(cfg, s.id)})
  {
    hide Put, Paths, Archives, SnapshotPathOf;
    ArchivesPut(cfg, w.res.snapshots, s);
  }

  lemma RemoveSnapshotDisk(cfg: Config, w: World, id: string, removed: bool, written: bool)
    requires Unique(w.res.snapshots, SnapshotID)
    ensures var d, path := DiskOf(cfg, w), SnapshotPathOf(cfg, id);
      DiskOf(cfg, RemoveSnapshot(cfg, w, id, removed, written)) ==
        Disk(if removed then d.files - {path} else d.files, d.backing, d.archives - {path})
  {
    hide Paths, Archives, SnapshotPathOf, IndexBy;
    ArchivesDrop(cfg, w.res.snapshots, id);
  }

  // ----- members of a group -----

  /** Index of the first member that cannot be made: its volume is missing or its archive fails. */
  ghost function MadeUpTo(vs: seq<Volume>, sources: seq<string>, i: nat, env: Env): (k: nat)
    requires i <= |sources|
    ensures i <= k <= |sources|
    decreases |sources| - i
  {
    if i == |sources| || Find(vs, VolumeID, sources[i]).None? || !Outcome(env.archives, i) then i
    else MadeUpTo(vs, sources, i + 1, env)
  }

  ghost function MemberArchives(cfg: Config, env: Env, i: nat, k: nat): set<string>
    requires i <= k <= |env.memberIDs|
  {
    set j | i <= j < k :: SnapshotPathOf(cfg, env.memberIDs[j])
  }

  /** The archive of the member that fails is what fails, and it stays unfinished. */
  ghost predicate StaysUnfinished(vs: seq<Volume>, sources: seq<string>, k: nat, env: Env) {
    k < |sources| && Find(vs, VolumeID, sources[k]).Some? && env.remains
  }

  ghost function LeftAt(cfg: Config, vs: seq<Volume>, sources: seq<string>, k: nat, env: Env): set<string>
    requires |sources| <= |env.memberIDs|
  {
    if StaysUnfinished(vs, sources, k, env) then {SnapshotPathOf(cfg, env.memberIDs[k])} else {}
  }

  lemma AddMemberDisk(cfg: Config, w: World, name: string, source: string, i: nat, env: Env)
    requires i < |env.memberIDs|
    ensures var (w', failure), path := AddMember(cfg, w, name, source, i, env), SnapshotPathOf(cfg, env.memberIDs[i]);
      var d, v := DiskOf(cfg, w), Find(w.res.volumes, VolumeID, source);
      && w'.res.volumes == w.res.volumes
      && (failure.Some? <==> v.None? || !Outcome(env.archives, i))
      && DiskOf(cfg, w') ==
        if failure.None? then d.(files := d.files + {path}, archives := d.archives + {path})
        else if v.Some? && env.remains then d.(files := d.files + {path})
        else d
  {
    hide Paths, Archives, SnapshotPathOf, IndexBy, Put;
    var path := SnapshotPathOf(cfg, env.memberIDs[i]);
    match Find(w.res.volumes, VolumeID, source) {
      case None =>
      case Some(v) =>
        var s := MemberOf(cfg, name, env.uuid, v, source, env.memberIDs[i], env.now);
        SaveSnapshotDisk(cfg, w.(files := w.files + {path}), s, Outcome(env.writes, i));
    }
  }

  lemma NextArchives(cfg: Config, env: Env, i: nat, k: nat)
    requires i < k <= |env.memberIDs|
    ensures MemberArchives(cfg, env, i, k)
         == {SnapshotPathOf(cfg, env.memberIDs[i])} + MemberArchives(cfg, env, i + 1, k)
  {
    hide SnapshotPathOf;
  }

  lemma {:induction false} AddMembersDisk(cfg: Config, w: World, name: string, sources: seq<string>, i: nat, env: Env)
    requires i <= |sources| <= |env.memberIDs|
    ensures var vs, d := w.res.volumes, DiskOf(cfg, w);
      var k := MadeUpTo(vs, sources, i, env);
      var (w', failure) := AddMembers(cfg, w, name, sources, i, env);
      && (failure.None? <==> k == |sources|)
      && DiskOf(cfg, w') == Disk(d.files + MemberArchives(cfg, env, i, k) + LeftAt(cfg, vs, sources, k, env),
                                 d.backing, d.archives + MemberArchives(cfg, env, i, k))
    decreases |sources| - i
  {
    hide DiskOf, AddMember, SnapshotPathOf, Find;
    assert MemberArchives(cfg, env, i, i) == {};
    if i < |sources| {
      AddMemberDisk(cfg, w, name, sources[i], i, env);
      var (w1, failure) := AddMember(cfg, w, name, sources[i], i, env);
      if failure.None? {
        AddMembersDisk(cfg, w1, name, sources, i + 1, env);
        NextArchives(cfg, env, i, MadeUpTo(w.res.volumes, sources, i, env));
      }
    }
  }

  /** Deleting the members ids[i..] gets to the k-th: no write before it fails. */
  ghost predicate GetsTo(ss: seq<Snapshot>, ids: seq<string>, i: nat, k: nat, env: Env)
    requires k < |ids|
  {
    i <= k && forall j :: i <= j < k ==> Find(ss, SnapshotID, ids[j]).None? || Outcome(env.writes, j)
  }

  /** The archive paths that deleting ids[i..] gets to. */
  ghost function GoneOver(cfg: Config, ss: seq<Snapshot>, ids: seq<string>, i: nat, env: Env): set<string> {
    set k | 0 <= k < |ids| && GetsTo(ss, ids, i, k, env) :: SnapshotPathOf(cfg, ids[k])
  }

  /** Those it removes. */
  ghost function TakenAway(cfg: Config, ss: seq<Snapshot>, ids: seq<string>, i: nat, env: Env): set<string> {
    set k | 0 <= k < |ids| && GetsTo(ss, ids, i, k, env) && Outcome(env.removals, k) :: SnapshotPathOf(cfg, ids[k])
  }

  lemma GetsToNext(ss: seq<Snapshot>, ids: seq<string>, i: nat, k: nat, env: Env)
    requires NoRepeats(ids) && i < k < |ids|
    ensures GetsTo(ss, ids, i, k, env) <==>
      && (Find(ss, SnapshotID, ids[i]).None? || Outcome(env.writes, i))
      && GetsTo(Drop(ss, SnapshotID, ids[i]), ids, i + 1, k, env)
  {
    hide Find, Drop;
    forall j | i < j < |ids|
      ensures Find(Drop(ss, SnapshotID, ids[i]), SnapshotID, ids[j]) == Find(ss, SnapshotID, ids[j])
    {
      FindOther(ss, SnapshotID, ids[i], ids[j]);
    }
  }

  lemma GoneOverNext(cfg: Config, ss: seq<Snapshot>, ids: seq<string>, i: nat, env: Env)
    requires NoRepeats(ids) && i < |ids|
    ensures var path, t := SnapshotPathOf(cfg, ids[i]), Drop(ss, SnapshotID, ids[i]);
      var goes := Find(ss, SnapshotID, ids[i]).None? || Outcome(env.writes, i);
      && GoneOver(cfg, ss, ids, i, env) == {path} + (if goes then GoneOver(cfg, t, ids, i + 1, env) else {})
      && TakenAway(cfg, ss, ids, i, env) == (if Outcome(env.removals, i) then {path} else {})
                                            + (if goes then TakenAway(cfg, t, ids, i + 1, env) else {})
  {
    hide Find, Drop, SnapshotPathOf, NoRepeats;
    assert GetsTo(ss, ids, i, i, env);
    forall k | i < k < |ids|
      ensures GetsTo(ss, ids, i, k, env) <==>
        && (Find(ss, SnapshotID, ids[i]).None? || Outcome(env.writes, i))
        && GetsTo(Drop(ss, SnapshotID, ids[i]), ids, i + 1, k, env)
    {
      GetsToNext(ss, ids, i, k, env);
    }
  }

  lemma {:induction false} DropMembersDisk(cfg: Config, w: World, ids: seq<string>, i: nat, env: Env)
    requires Unique(w.res.snapshots, SnapshotID) && NoRepeats(ids) && i <= |ids|
    ensures var ss, d := w.res.snapshots, DiskOf(cfg, w);
      DiskOf(cfg, DropMembers(cfg, w, ids, i, env).0) ==
        Disk(d.files - TakenAway(cfg, ss, ids, i, env), d.backing, d.archives - GoneOver(cfg, ss, ids, i, env))
    decreases |ids| - i
  {
    hide DiskOf, SnapshotPathOf, Find, Drop, Unique, NoRepeats, GoneOver, TakenAway;
    if i == |ids| {
      NothingGoneOver(cfg, w.res.snapshots, ids, env);
    } else {
      RemoveSnapshotDisk(cfg, w, ids[i], Outcome(env.removals, i), Outcome(env.writes, i));
      GoneOverNext(cfg, w.res.snapshots, ids, i, env);
      DropUnique(w.res.snapshots, SnapshotID, ids[i], SnapshotID);
      RemovedList(cfg, w, ids, i, env);
      DropMembersDisk(cfg, DropAt(cfg, w, ids, i, env), ids, i + 1, env);
    }
  }

  lemma NothingGoneOver(cfg: Config, ss: seq<Snapshot>, ids: seq<string>, env: Env)
    ensures GoneOver(cfg, ss, ids, |ids|, env) == {} && TakenAway(cfg, ss, ids, |ids|, env) == {}
  {
  }

  lemma RemovedList(cfg: Config, w: World, ids: seq<string>, i: nat, env: Env)
    requires i < |ids|
    ensures DropAt(cfg, w, ids, i, env).res.snapshots == Drop(w.res.snapshots, SnapshotID, ids[i])
  {
  }
}
