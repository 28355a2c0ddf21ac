// What creating, deleting and listing single snapshots answers and changes, in terms of the records.
module SnapshotAnswers {
  import opened Base
  import opened Lists
  import opened Sorting
  import opened State
  import opened Driver
  import opened Paging
  import opened Answers

  ghost predicate NoSnapshot(w: World, id: string) { forall s :: s in w.res.snapshots ==> s.id != id }

  /** A reply's entry has what the record has. */
  ghost predicate Shows(l: Listing, s: Snapshot) {
    && l.id == s.id && l.volID == s.volID && l.creationTime == s.creationTime && l.size == s.size
    && l.ready == s.ready && l.groupID == s.groupID
  }

  // ---------- CreateSnapshot ----------

  /** The request is valid; s is the first snapshot of its name. */
  lemma RepeatedSnapshot(cfg: Config, w: World, i: nat, volID: string, env: Env)
    requires i < |w.res.snapshots| && !cfg.ephemeral && w.res.snapshots[i].name != "" && volID != ""
    requires forall j :: 0 <= j < i ==> w.res.snapshots[j].name != w.res.snapshots[i].name
    ensures var s := w.res.snapshots[i];
      var (w', reply) := Answer(cfg, w, CreateSnapshotCall(s.name, volID), env);
      && w' == w
      && (reply == Failed(AlreadyExists) <==> s.volID != volID)
      && (s.volID == volID ==> reply.SnapshotIs? && Shows(reply.snapshot, s.(groupID := "")))
  {
    hide IndexBy;
    IndexIs(w.res.snapshots, SnapshotName, w.res.snapshots[i].name, i);
  }

  /** A snapshot of a volume as it is now. */
  ghost predicate TakenOf(cfg: Config, s: Snapshot, v: Volume, now: int) {
    && s.path == cfg.stateDir + "/" + (s.id + ".snap") && s.volID == v.id && s.size == v.size
    && s.creationTime == now && s.ready
  }

  /** A valid request under a new name, for a stored volume. A snapshot that cannot be written is in
      memory all the same. */
  lemma SnapshotAnswers(cfg: Config, w: World, s: Snapshot, v: Volume, env: Env)
    requires !cfg.ephemeral && s.name != "" && s.volID != "" && (forall t :: t in w.res.snapshots ==> t.name != s.name)
    requires Unique(w.res.volumes, VolumeID) && v in w.res.volumes && NoSnapshot(w, env.uuid)
    requires TakenOf(cfg, s, v, env.now) && s.id == env.uuid && s.groupID == ""
    ensures var (w', reply) := Answer(cfg, w, CreateSnapshotCall(s.name, v.id), env);
      var res := w.res.(snapshots := w.res.snapshots + [s]);
      if !env.filesOK
      then && reply == Failed(Unknown)
           && w' == w.(files := w.files + if env.remains then {s.path} else {})
      else && (reply == Failed(Internal) <==> !env.written)
           && (env.written ==> reply.SnapshotIs? && Shows(reply.snapshot, s))
           && w' == w.(res := res, files := w.files + {s.path},
                       file := if env.written then Some(res) else w.file, clean := env.written)
  {
    hide IndexBy;
    FoundByKey(w.res.volumes, VolumeID, v);
    PutThenDrop(w.res.snapshots, SnapshotID, s);
  }

  lemma RefusedSnapshot(cfg: Config, w: World, name: string, volID: string, env: Env)
    requires var valid := !cfg.ephemeral && name != "" && volID != "";
      valid ==> NoVolume(w, volID) && forall t :: t in w.res.snapshots ==> t.name != name
    ensures Answer(cfg, w, CreateSnapshotCall(name, volID), env)
         == (w, Failed(if cfg.ephemeral || name == "" || volID == "" then InvalidArgument else NotFound))
  {
    hide IndexBy;
  }

  // ---------- DeleteSnapshot ----------

  /** The archive goes where it can be removed; nothing is refused for belonging to a group. */
  lemma DeleteSnapshotAnswers(cfg: Config, w: World, id: string, env: Env)
    ensures var (w', reply) := Answer(cfg, w, DeleteSnapshotCall(id), env);
      var valid, path := id != "" && !cfg.ephemeral, cfg.stateDir + "/" + (id + ".snap");
      var w1 := if env.removals != [] && !env.removals[0] then w else w.(files := w.files - {path});
      && (reply == Failed(InvalidArgument) <==> !valid)
      && (reply == Failed(Internal) <==> valid && !NoSnapshot(w, id) && !env.written)
      && (reply == Done <==> valid && (NoSnapshot(w, id) || env.written))
      && if !valid then w' == w
         else if NoSnapshot(w, id) then w' == w1
         else SnapshotLost(w1, w', id, env.written)
  {
    hide IndexBy;
    var i := IndexBy(w.res.snapshots, SnapshotID, id);
    assert i < |w.res.snapshots| ==> w.res.snapshots[i] in w.res.snapshots;
  }

  ghost predicate SnapshotLost(w: World, w': World, id: string, written: bool) {
    && Wrote(w, w', written) && w'.res == w.res.(snapshots := w'.res.snapshots)
    && exists i :: 0 <= i < |w.res.snapshots| && w.res.snapshots[i].id == id
         && w'.res.snapshots == w.res.snapshots[..i] + w.res.snapshots[i + 1..]
  }

  // ---------- ListSnapshots ----------

  lemma ListRefused(cfg: Config, snapshots: seq<Snapshot>, id: string, volID: string, maxEntries: nat, token: string)
    ensures List(cfg, snapshots, id, volID, maxEntries, token) == PageFailed(InvalidArgument) <==> cfg.ephemeral
  {
    hide IndexBy;
  }

  /** By ID: one entry at most, which shows the stored snapshot. */
  lemma ListByID(cfg: Config, snapshots: seq<Snapshot>, id: string, volID: string, maxEntries: nat, token: string)
    requires !cfg.ephemeral && id != ""
    ensures var p := List(cfg, snapshots, id, volID, maxEntries, token);
      && p.PageOf? && p.nextToken == "" && |p.entries| <= 1
      && (p.entries == [] <==> forall s :: s in snapshots ==> s.id != id)
      && (p.entries != [] ==>
            exists i :: 0 <= i < |snapshots| && snapshots[i].id == id && Shows(p.entries[0], snapshots[i])
                   && forall j :: 0 <= j < i ==> snapshots[j].id != id)
  {
    hide IndexBy;
    var i := IndexBy(snapshots, SnapshotID, id);
    assert i < |snapshots| ==> snapshots[i] in snapshots;
    assert forall j :: 0 <= j < i ==> SnapshotID(snapshots[j]) != id;
  }

  /** By source volume: one entry at most, which shows the first snapshot of that volume. */
  lemma ListByVolume(cfg: Config, snapshots: seq<Snapshot>, volID: string, maxEntries: nat, token: string)
    requires !cfg.ephemeral && volID != ""
    ensures var p := List(cfg, snapshots, "", volID, maxEntries, token);
      && p.PageOf? && p.nextToken == "" && |p.entries| <= 1
      && (p.entries == [] <==> forall s :: s in snapshots ==> s.volID != volID)
      && (p.entries != [] ==>
            exists i :: 0 <= i < |snapshots| && snapshots[i].volID == volID && Shows(p.entries[0], snapshots[i])
                   && forall j :: 0 <= j < i ==> snapshots[j].volID != volID)
  {
    hide IndexBy;
    var i := IndexBy(snapshots, SnapshotVolume, volID);
    assert i < |snapshots| ==> snapshots[i] in snapshots;
    assert forall j :: 0 <= j < i ==> SnapshotVolume(snapshots[j]) != volID;
  }

  lemma ListedInOrder(snapshots: seq<Snapshot>, t: seq<Snapshot>)
    requires Unique(snapshots, SnapshotID)
    requires multiset(t) == multiset(snapshots) && SortedBy(t, SnapshotID)
    ensures var all := SortedListings(snapshots); |all| == |t| && forall i :: 0 <= i < |t| ==> Shows(all[i], t[i])
  {
    hide SortBy;
    SortIsDetermined(snapshots, t);
  }

  /** A page of all: t is the snapshots in ID order, and the page shows the next ones from where the
      token says, as many as asked for or are left. */
  lemma ListPage(cfg: Config, snapshots: seq<Snapshot>, t: seq<Snapshot>, maxEntries: nat, token: string)
    requires !cfg.ephemeral && Unique(snapshots, SnapshotID)
    requires multiset(t) == multiset(snapshots) && SortedBy(t, SnapshotID)
    ensures var p := List(cfg, snapshots, "", "", maxEntries, token);
      var start := if token == "" then Parsed(0, true) else ParseUint(token, 0xFFFF_FFFF);
      && (p == PageFailed(Aborted) <==> !start.ok || start.value > |t|)
      && (start.ok && start.value <= |t| ==>
            var left := |t| - start.value;
            && p.PageOf? && |p.entries| == (if maxEntries == 0 || maxEntries > left then left else maxEntries)
            && (forall i :: 0 <= i < |p.entries| ==> Shows(p.entries[i], t[start.value + i]))
            && p.nextToken == if |p.entries| < left then PrintNat(start.value + |p.entries|) else "")
  {
    hide SortedListings, Shows, ParseUint, PrintNat;
    ListedInOrder(snapshots, t);
  }
}
