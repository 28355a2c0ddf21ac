// Group snapshots over runs: deletion removes exactly the members, undoes a creation, and an
// undisturbed group stays complete and is found again by any ordering of its sources.
module Groups {
  import opened Base
  import opened Lists
  import opened State
  import opened ProjectIDs
  import opened Quota
  import opened Driver
  import opened Effects
  import opened Soundness
  import opened Reachable
  import opened Durable
  import opened Idempotence

  // ---------- deleting a group ----------

  /** The snapshots whose IDs are not listed, in their order. */
  function Without(s: seq<Snapshot>, ids: seq<string>): seq<Snapshot> {
    if s == [] then []
    else Without(s[..|s| - 1], ids) + if s[|s| - 1].id in ids then [] else [s[|s| - 1]]
  }

  lemma {:induction false} WithoutConcat(a: seq<Snapshot>, b: seq<Snapshot>, ids: seq<string>)
    ensures Without(a + b, ids) == Without(a, ids) + Without(b, ids)
  {
    if b == [] {
      assert a + b == a;
    } else {
      var b' := b[..|b| - 1];
      assert (a + b)[..|a + b| - 1] == a + b';
      WithoutConcat(a, b', ids);
    }
  }

  lemma {:induction false} WithoutUnlisted(s: seq<Snapshot>, ids: seq<string>)
    requires forall i :: 0 <= i < |s| ==> s[i].id !in ids
    ensures Without(s, ids) == s
  {
    if s != [] {
      WithoutUnlisted(s[..|s| - 1], ids);
    }
  }

  lemma {:induction false} WithoutListed(s: seq<Snapshot>, ids: seq<string>)
    requires forall i :: 0 <= i < |s| ==> s[i].id in ids
    ensures Without(s, ids) == []
  {
    if s != [] {
      WithoutListed(s[..|s| - 1], ids);
    }
  }

  lemma {:induction false} WithoutTwice(s: seq<Snapshot>, a: seq<string>, b: seq<string>)
    ensures Without(Without(s, a), b) == Without(s, a + b)
  {
    if s != [] {
      var s', l := s[..|s| - 1], s[|s| - 1];
      WithoutTwice(s', a, b);
      var kept := if l.id in a then [] else [l];
      WithoutConcat(Without(s', a), kept, b);
      assert [l][..0] == [];
    }
  }

  lemma WithoutAbsent(s: seq<Snapshot>, id: string)
    requires Absent(s, SnapshotID, id)
    ensures Without(s, [id]) == s
  {
    forall i | 0 <= i < |s| ensures s[i].id !in [id] {
      assert SnapshotID(s[i]) != id;
    }
    WithoutUnlisted(s, [id]);
  }

  lemma WithoutMiddle(front: seq<Snapshot>, x: Snapshot, back: seq<Snapshot>)
    requires Absent(front, SnapshotID, x.id) && Absent(back, SnapshotID, x.id)
    ensures Without(front + [x] + back, [x.id]) == front + back
  {
    WithoutAbsent(front, x.id);
    WithoutAbsent(back, x.id);
    WithoutListed([x], [x.id]);
    hide *;
    WithoutConcat(front + [x], back, [x.id]);
    WithoutConcat(front, [x], [x.id]);
    assert front + [] == front;
  }

  lemma OthersAbsent(s: seq<Snapshot>, k: nat)
    requires Unique(s, SnapshotID) && k < |s|
    ensures Absent(s[..k], SnapshotID, s[k].id) && Absent(s[k + 1..], SnapshotID, s[k].id)
  {
    assert forall j :: k < j < |s| ==> SnapshotID(s[k]) != SnapshotID(s[j]);
  }

  lemma NotFoundAbsent(s: seq<Snapshot>, id: string)
    requires IndexBy(s, SnapshotID, id) == |s|
    ensures Absent(s, SnapshotID, id)
  {
  }

  lemma DropIsWithout(s: seq<Snapshot>, id: string)
    requires Unique(s, SnapshotID)
    ensures Drop(s, SnapshotID, id) == Without(s, [id])
  {
    hide Without, Unique, Absent;
    var k := IndexBy(s, SnapshotID, id);
    if k < |s| {
      OthersAbsent(s, k);
      WithoutMiddle(s[..k], s[k], s[k + 1..]);
      assert s[..k] + [s[k]] + s[k + 1..] == s;
    } else {
      NotFoundAbsent(s, id);
      WithoutAbsent(s, id);
    }
  }

  lemma RemoveExact(cfg: Config, w: World, id: string, removed: bool, written: bool)
    requires Unique(w.res.snapshots, SnapshotID)
    ensures RemoveSnapshot(cfg, w, id, removed, written).res == w.res.(snapshots := Without(w.res.snapshots, [id]))
  {
    DropIsWithout(w.res.snapshots, id);
  }

  lemma {:induction false} DropMembersExact(cfg: Config, w: World, ids: seq<string>, i: nat, env: Env)
    requires SoundWorld(cfg, w) && i <= |ids| && AllWritten(env)
    ensures var (w', ok) := DropMembers(cfg, w, ids, i, env);
      ok && w'.res == w.res.(snapshots := Without(w.res.snapshots, ids[i..]))
    decreases |ids| - i
  {
    hide SoundWorld, RemoveSnapshot, Without;
    if i < |ids| {
      SoundMeansUnique(cfg, w);
      RemoveExact(cfg, w, ids[i], Outcome(env.removals, i), Outcome(env.writes, i));
      RemoveSnapshotSound(cfg, w, ids[i], Outcome(env.removals, i), Outcome(env.writes, i));
      DropMembersExact(cfg, DropAt(cfg, w, ids, i, env), ids, i + 1, env);
      WithoutTwice(w.res.snapshots, [ids[i]], ids[i + 1..]);
      assert [ids[i]] + ids[i + 1..] == ids[i..];
    } else {
      assert ids[i..] == [];
      WithoutUnlisted(w.res.snapshots, []);
    }
  }

  /** With successful writes a group deletion leaves exactly the snapshots that are not members, in
      order, and all other groups as they are. */
  lemma DeleteGroupExact(cfg: Config, w: World, id: string, env: Env)
    requires SoundWorld(cfg, w) && id != "" && Find(w.res.groups, GroupID, id).Some? && AllWritten(env)
    ensures var (w', reply) := DeleteGroup(cfg, w, id, env);
      && reply == Done
      && w'.res == Resources(w.res.volumes, Without(w.res.snapshots, Find(w.res.groups, GroupID, id).value.snapshotIDs),
                             Drop(w.res.groups, GroupID, id))
  {
    DropMembersExact(cfg, w, Find(w.res.groups, GroupID, id).value.snapshotIDs, 0, env);
  }

  // ---------- creating a group ----------

  /** Deleting a group right after its creation restores the state exactly. */
  lemma CreateThenDelete(cfg: Config, w: World, name: string, sources: seq<string>, env: Env, later: Env)
    requires SoundWorld(cfg, w) && |sources| <= |env.memberIDs| && NewID(w.res, env.uuid)
    requires NewFrom(w.res, env.memberIDs, 0)
    requires env.uuid != "" && Find(w.res.groups, GroupName, name).None? && AllWritten(later)
    requires CreateGroup(cfg, w, name, sources, env).1.GroupIs?
    ensures DeleteGroup(cfg, CreateGroup(cfg, w, name, sources, env).0, env.uuid, later).0.res == w.res
  {
    hide SoundWorld, Without;
    var w1 := CreateGroup(cfg, w, name, sources, env).0;
    var k := CreateGroupOutcome(cfg, w, name, sources, env);
    CreateGroupSound(cfg, w, name, sources, env);
    var g := Group(name, env.uuid, env.memberIDs[..|sources|], sources, env.now, true);
    AppendedGroupFound(w.res.groups, g);
    DeleteGroupExact(cfg, w1, env.uuid, later);
    var members := NewMembers(cfg, w.res.volumes, name, sources, 0, |sources|, env);
    OldUnlisted(w.res, env.memberIDs, |sources|);
    OnlyNewListed(w.res.snapshots, members, g.snapshotIDs);
  }

  lemma OnlyNewListed(before: seq<Snapshot>, added: seq<Snapshot>, ids: seq<string>)
    requires forall i :: 0 <= i < |before| ==> before[i].id !in ids
    requires forall i :: 0 <= i < |added| ==> added[i].id in ids
    ensures Without(before + added, ids) == before
  {
    WithoutConcat(before, added, ids);
    WithoutUnlisted(before, ids);
    WithoutListed(added, ids);
  }

  lemma OldUnlisted(r: Resources, ids: seq<string>, n: nat)
    requires n <= |ids| && forall j :: 0 <= j < |ids| ==> NewID(r, ids[j])
    ensures forall i :: 0 <= i < |r.snapshots| ==> r.snapshots[i].id !in ids[..n]
  {
    forall i, j | 0 <= i < |r.snapshots| && 0 <= j < n ensures r.snapshots[i].id != ids[j] {
      assert SnapshotID(r.snapshots[i]) != ids[j];
    }
  }

  lemma AppendedGroupFound(gs: seq<Group>, g: Group)
    requires Absent(gs, GroupID, g.id)
    ensures Find(gs + [g], GroupID, g.id) == Some(g) && Drop(gs + [g], GroupID, g.id) == gs
  {
    IndexIs(gs + [g], GroupID, g.id, |gs|);
  }

  // ---------- groups over runs ----------

  /** The group is stored, up to the order in its lists, and all its members are. */
  ghost predicate CompleteIn(r: Resources, g: Group) {
    var f := Find(r.groups, GroupID, g.id);
    f.Some? && SameUpToOrder(g, f.value) && AllPresent(r.snapshots, f.value.snapshotIDs)
  }

  ghost predicate Complete(w: World, g: Group) { CompleteIn(w.res, g) }

  /** Deletes a member or the group itself, or restarts from a file that does not have it complete. */
  ghost predicate Breaks(cfg: Config, w: World, e: Event, g: Group) {
    match e.call
    case DeleteSnapshotCall(id) => id in g.snapshotIDs && id != "" && !cfg.ephemeral
    case DeleteGroupCall(id) => id == g.id && id != ""
    case RestartCall => !CompleteIn(Restored(w), g)
    case _ => false
  }

  ghost predicate UnbrokenRun(cfg: Config, w: World, es: seq<Event>, g: Group)
    decreases |es|
  {
    es == [] || (!Breaks(cfg, w, es[0], g) && UnbrokenRun(cfg, Step(cfg, w, es[0]), es[1..], g))
  }

  lemma PresentInLonger(a: seq<Snapshot>, b: seq<Snapshot>, ids: seq<string>)
    requires AllPresent(a, ids)
    ensures AllPresent(a + b, ids)
  {
    forall i | 0 <= i < |ids| ensures Find(a + b, SnapshotID, ids[i]).Some? {
      IndexIs(a + b, SnapshotID, ids[i], IndexBy(a, SnapshotID, ids[i]));
    }
  }

  lemma PresentAfterOther(a: seq<Snapshot>, gone: string, ids: seq<string>)
    requires AllPresent(a, ids) && gone !in ids
    ensures AllPresent(Drop(a, SnapshotID, gone), ids)
  {
    forall i | 0 <= i < |ids| ensures Find(Drop(a, SnapshotID, gone), SnapshotID, ids[i]).Some? {
      assert ids[i] in ids;
      FindKeptByDrop(a, SnapshotID, gone, SnapshotID, ids[i]);
    }
  }

  lemma ListedUpToOrder(g: Group, h: Group)
    requires SameUpToOrder(g, h)
    ensures forall x :: x in g.snapshotIDs <==> x in h.snapshotIDs
  {
    MembersUpToOrder(g.snapshotIDs, h.snapshotIDs);
  }

  lemma CreateSnapshotComplete(cfg: Config, w: World, e: Event, g: Group)
    requires Complete(w, g) && Possible(cfg, w, e) && e.call.CreateSnapshotCall?
    ensures Complete(Step(cfg, w, e), g)
  {
    var c, env := e.call, e.env;
    match Find(w.res.volumes, VolumeID, c.volID) {
      case None =>
      case Some(v) =>
        var s := Snapshot(c.name, env.uuid, c.volID, SnapshotPathOf(cfg, env.uuid), env.now, v.size, true, "");
        PutThenDrop(w.res.snapshots, SnapshotID, s);
        PresentInLonger(w.res.snapshots, [s], Find(w.res.groups, GroupID, g.id).value.snapshotIDs);
    }
  }

  lemma RemoveOtherComplete(cfg: Config, w: World, gone: string, removed: bool, written: bool, g: Group)
    requires Complete(w, g) && gone !in g.snapshotIDs
    ensures Complete(RemoveSnapshot(cfg, w, gone, removed, written), g)
  {
    var f := Find(w.res.groups, GroupID, g.id).value;
    ListedUpToOrder(g, f);
    PresentAfterOther(w.res.snapshots, gone, f.snapshotIDs);
  }

  lemma {:induction false} DropMembersComplete(cfg: Config, w: World, ids: seq<string>, i: nat, env: Env,
                                                g: Group)
    requires Complete(w, g) && i <= |ids| && Disjoint(ids, g.snapshotIDs)
    ensures Complete(DropMembers(cfg, w, ids, i, env).0, g)
    decreases |ids| - i
  {
    hide Complete;
    if i < |ids| {
      assert ids[i] in ids;
      RemoveOtherComplete(cfg, w, ids[i], Outcome(env.removals, i), Outcome(env.writes, i), g);
      DropMembersComplete(cfg, DropAt(cfg, w, ids, i, env), ids, i + 1, env, g);
    }
  }

  lemma SortComplete(w: World, i: nat, ids: seq<string>, g: Group)
    requires Complete(w, g) && i < |w.res.groups|
    ensures Complete(SortSources(w, i, ids), g) && Complete(SortMembers(w, i, ids), g)
  {
    SortedLists(w, i, ids);
    var k := IndexBy(w.res.groups, GroupID, g.id);
    IndexIs(SortSources(w, i, ids).res.groups, GroupID, g.id, k);
    IndexIs(SortMembers(w, i, ids).res.groups, GroupID, g.id, k);
    var h := SortMembers(w, i, ids).res.groups[k];
    PresentUpToOrder(w.res.snapshots, w.res.groups[k].snapshotIDs, h.snapshotIDs);
  }

  lemma LongerComplete(w: World, w': World, a: seq<Snapshot>, b: seq<Group>, g: Group)
    requires Complete(w, g) && w'.res.snapshots == w.res.snapshots + a && w'.res.groups == w.res.groups + b
    ensures Complete(w', g)
  {
    var k := IndexBy(w.res.groups, GroupID, g.id);
    IndexIs(w'.res.groups, GroupID, g.id, k);
    PresentInLonger(w.res.snapshots, a, w.res.groups[k].snapshotIDs);
  }

  lemma CreateGroupComplete(cfg: Config, w: World, e: Event, g: Group)
    requires SoundWorld(cfg, w) && Complete(w, g) && Possible(cfg, w, e) && e.call.CreateGroupCall?
    ensures Complete(Step(cfg, w, e), g)
  {
    hide SoundWorld, Complete;
    var c, env := e.call, e.env;
    var i := IndexBy(w.res.groups, GroupName, c.name);
    if c.name != "" && c.sources != [] {
      if i < |w.res.groups| {
        SortComplete(w, i, c.sources, g);
      } else {
        var k := CreateGroupOutcome(cfg, w, c.name, c.sources, env);
        var w' := CreateGroup(cfg, w, c.name, c.sources, env).0;
        var added := if w'.res.groups == w.res.groups then []
                     else [Group(c.name, env.uuid, env.memberIDs[..|c.sources|], c.sources, env.now, true)];
        LongerComplete(w, w', NewMembers(cfg, w.res.volumes, c.name, c.sources, 0, k, env), added, g);
      }
    }
  }

  lemma DeleteGroupComplete(cfg: Config, w: World, e: Event, g: Group)
    requires SoundWorld(cfg, w) && Complete(w, g) && e.call.DeleteGroupCall? && e.call.id != g.id
    ensures Complete(Step(cfg, w, e), g)
  {
    hide SoundWorld, Complete, Find, Drop;
    match Find(w.res.groups, GroupID, e.call.id) {
      case None =>
      case Some(other) =>
        OtherMembersDisjoint(cfg, w, e.call.id, g);
        DropMembersComplete(cfg, w, other.snapshotIDs, 0, e.env, g);
        RemoveOtherGroup(DropMembers(cfg, w, other.snapshotIDs, 0, e.env).0, e.call.id, e.env.written, g);
    }
  }

  /** Deleting the group removes its first member, if it has one, even when nothing can be written. */
  lemma DeletionBreaks(cfg: Config, w: World, g: Group, env: Env)
    requires SoundWorld(cfg, w) && Complete(w, g) && g.id != ""
    ensures !Complete(DeleteGroup(cfg, w, g.id, env).0, g)
  {
    hide Sound, Find, Drop, Absent;
    var f := Find(w.res.groups, GroupID, g.id).value;
    var w1 := DropMembers(cfg, w, f.snapshotIDs, 0, env).0;
    DropMembersSound(cfg, w, f.snapshotIDs, 0, env);
    SoundMeansUnique(cfg, w);
    if f.snapshotIDs == [] {
      FindDropped(w.res.groups, GroupID, g.id);
      AbsentNotFound(Drop(w.res.groups, GroupID, g.id), g.id);
    } else {
      var first := f.snapshotIDs[0];
      RemoveAbsent(cfg, w, first, Outcome(env.removals, 0), Outcome(env.writes, 0));
      DropMembersGone(cfg, DropAt(cfg, w, f.snapshotIDs, 0, env), f.snapshotIDs, 1, env, first);
      MissingFirst(w1, RemoveGroup(w1, g.id, env.written), f, g);
    }
  }

  lemma AbsentNotFound(gs: seq<Group>, id: string)
    requires Absent(gs, GroupID, id)
    ensures Find(gs, GroupID, id).None?
  {
  }

  lemma MissingFirst(w: World, later: World, f: Group, g: Group)
    requires Find(w.res.groups, GroupID, g.id) == Some(f) && f.snapshotIDs != []
    requires Absent(w.res.snapshots, SnapshotID, f.snapshotIDs[0])
    requires later == RemoveGroup(w, g.id, true) || later == RemoveGroup(w, g.id, false)
    ensures Unique(w.res.groups, GroupID) ==> !Complete(w, g) && !Complete(later, g)
  {
    if Unique(w.res.groups, GroupID) {
      FindDropped(w.res.groups, GroupID, g.id);
    }
  }

  lemma MemberGone(cfg: Config, w: World, gone: string, removed: bool, written: bool, g: Group)
    requires Complete(w, g) && gone in g.snapshotIDs && Unique(w.res.snapshots, SnapshotID)
    ensures !Complete(RemoveSnapshot(cfg, w, gone, removed, written), g)
  {
    var f := Find(w.res.groups, GroupID, g.id).value;
    ListedUpToOrder(g, f);
    FindDropped(w.res.snapshots, SnapshotID, gone);
    var j :| 0 <= j < |f.snapshotIDs| && f.snapshotIDs[j] == gone;
    assert Find(Drop(w.res.snapshots, SnapshotID, gone), SnapshotID, f.snapshotIDs[j]).None?;
  }

  lemma DeleteSnapshotCompleteIff(cfg: Config, w: World, e: Event, g: Group)
    requires SoundWorld(cfg, w) && Complete(w, g) && e.call.DeleteSnapshotCall?
    ensures Complete(Step(cfg, w, e), g) <==> !Breaks(cfg, w, e, g)
  {
    hide Sound, Complete, RemoveSnapshot;
    SoundMeansUnique(cfg, w);
    if e.call.id in g.snapshotIDs {
      MemberGone(cfg, w, e.call.id, Outcome(e.env.removals, 0), e.env.written, g);
    } else {
      RemoveOtherComplete(cfg, w, e.call.id, Outcome(e.env.removals, 0), e.env.written, g);
    }
  }

  lemma DeleteGroupCompleteIff(cfg: Config, w: World, e: Event, g: Group)
    requires SoundWorld(cfg, w) && Complete(w, g) && e.call.DeleteGroupCall?
    ensures Complete(Step(cfg, w, e), g) <==> !Breaks(cfg, w, e, g)
  {
    hide SoundWorld, Complete;
    if e.call.id != g.id {
      DeleteGroupComplete(cfg, w, e, g);
    } else if g.id != "" {
      DeletionBreaks(cfg, w, g, e.env);
    }
  }

  lemma RestartCompleteIff(cfg: Config, w: World, e: Event, g: Group)
    requires e.call.RestartCall?
    ensures Complete(Step(cfg, w, e), g) <==> !Breaks(cfg, w, e, g)
  {
    hide Started, CompleteIn;
  }

  lemma RemoveOtherGroup(w: World, id: string, written: bool, g: Group)
    requires Complete(w, g) && id != g.id
    ensures Complete(RemoveGroup(w, id, written), g)
  {
    FindKeptByDrop(w.res.groups, GroupID, id, GroupID, g.id);
  }

  lemma OtherMembersDisjoint(cfg: Config, w: World, id: string, g: Group)
    requires SoundWorld(cfg, w) && Complete(w, g) && id != g.id && Find(w.res.groups, GroupID, id).Some?
    ensures Disjoint(Find(w.res.groups, GroupID, id).value.snapshotIDs, g.snapshotIDs)
  {
    var i, j := IndexBy(w.res.groups, GroupID, id), IndexBy(w.res.groups, GroupID, g.id);
    ListedUpToOrder(g, w.res.groups[j]);
    assert Disjoint(w.res.groups[i].snapshotIDs, w.res.groups[j].snapshotIDs);
  }

  lemma GetGroupComplete(cfg: Config, w: World, e: Event, g: Group)
    requires Complete(w, g) && e.call.GetGroupCall?
    ensures Complete(Step(cfg, w, e), g)
  {
    hide Complete;
    var i := IndexBy(w.res.groups, GroupID, e.call.id);
    if i < |w.res.groups| {
      SortComplete(w, i, e.call.ids, g);
    }
  }

  lemma SameContentsComplete(s: Resources, r: Resources, g: Group)
    requires SameContents(s, r) && CompleteIn(r, g)
    ensures CompleteIn(s, g)
  {
    hide IndexBy;
    var k := IndexBy(r.groups, GroupID, g.id);
    assert forall j :: 0 <= j < |s.groups| ==> SameUpToOrder(s.groups[j], r.groups[j]);
    assert forall j :: 0 <= j <= k ==> GroupID(s.groups[j]) == GroupID(r.groups[j]);
    IndexIs(s.groups, GroupID, g.id, k);
    PresentUpToOrder(r.snapshots, r.groups[k].snapshotIDs, s.groups[k].snapshotIDs);
  }

  /** An up-to-date state file has a complete group complete, up to order. */
  lemma CleanRestartComplete(cfg: Config, w: World, e: Event, g: Group)
    requires e.call.RestartCall? && Complete(w, g) && Mirrored(w) && w.clean
    ensures !Breaks(cfg, w, e, g)
  {
    hide CompleteIn, SameContents;
    SameContentsComplete(Restored(w), w.res, g);
  }

  lemma SameListsComplete(w: World, w': World, g: Group)
    requires Complete(w, g) && SnapshotsKept(w, w')
    ensures Complete(w', g)
  {
  }

  /** A step keeps a complete group complete, up to order, exactly unless it breaks it. */
  lemma StepCompleteIff(cfg: Config, w: World, e: Event, g: Group)
    requires SoundWorld(cfg, w) && Complete(w, g) && Possible(cfg, w, e)
    ensures Complete(Step(cfg, w, e), g) <==> !Breaks(cfg, w, e, g)
  {
    hide SoundWorld, Complete, SnapshotsKept, Step, NewID, HasFree;
    match e.call {
      case CreateSnapshotCall(_, _) => CreateSnapshotComplete(cfg, w, e, g);
      case DeleteSnapshotCall(_) => DeleteSnapshotCompleteIff(cfg, w, e, g);
      case CreateGroupCall(_, _) => CreateGroupComplete(cfg, w, e, g);
      case DeleteGroupCall(_) => DeleteGroupCompleteIff(cfg, w, e, g);
      case GetGroupCall(_, _) => GetGroupComplete(cfg, w, e, g);
      case RestartCall => RestartCompleteIff(cfg, w, e, g);
      case _ =>
        VolumeStepKeepsSnapshots(cfg, w, e);
        SameListsComplete(w, Step(cfg, w, e), g);
    }
  }

  lemma {:induction false} RunComplete(cfg: Config, w: World, es: seq<Event>, g: Group)
    requires SoundWorld(cfg, w) && Complete(w, g) && PossibleRun(cfg, w, es) && UnbrokenRun(cfg, w, es, g)
    ensures Complete(Run(cfg, w, es), g) && SoundWorld(cfg, Run(cfg, w, es))
    decreases |es|
  {
    hide SoundWorld, Complete, Breaks;
    if es != [] {
      StepCompleteIff(cfg, w, es[0], g);
      StepSound(cfg, w, es[0]);
      RunComplete(cfg, Step(cfg, w, es[0]), es[1..], g);
    }
  }

  /** No call deletes the group or a member, and restarts are settled. */
  ghost predicate QuietGroupRun(cfg: Config, w: World, es: seq<Event>, g: Group)
    decreases |es|
  {
    || es == []
    || (Settled(w, es[0]) && (!es[0].call.RestartCall? ==> !Breaks(cfg, w, es[0], g))
        && QuietGroupRun(cfg, Step(cfg, w, es[0]), es[1..], g))
  }

  lemma {:induction false} QuietIsUnbroken(cfg: Config, w: World, es: seq<Event>, g: Group)
    requires SoundWorld(cfg, w) && Mirrored(w) && Complete(w, g) && PossibleRun(cfg, w, es)
    requires QuietGroupRun(cfg, w, es, g)
    ensures UnbrokenRun(cfg, w, es, g)
    decreases |es|
  {
    hide SoundWorld, Mirrored, Complete, Breaks, Possible;
    if es != [] {
      if es[0].call.RestartCall? {
        CleanRestartComplete(cfg, w, es[0], g);
      }
      StepCompleteIff(cfg, w, es[0], g);
      StepSound(cfg, w, es[0]);
      StepMirrored(cfg, w, es[0]);
      QuietIsUnbroken(cfg, Step(cfg, w, es[0]), es[1..], g);
    }
  }

  // ---------- replies about a complete group ----------

  lemma {:induction false} MembersFound(snapshots: seq<Snapshot>, ids: seq<string>)
    requires AllPresent(snapshots, ids)
    ensures Members(snapshots, ids).Some?
  {
    if ids != [] {
      MembersFound(snapshots, ids[..|ids| - 1]);
    }
  }

  lemma {:induction false} MembersMissing(snapshots: seq<Snapshot>, ids: seq<string>)
    requires Members(snapshots, ids).Some?
    ensures AllPresent(snapshots, ids)
  {
    if ids != [] {
      MembersMissing(snapshots, ids[..|ids| - 1]);
      assert forall i :: 0 <= i < |ids| - 1 ==> ids[..|ids| - 1][i] == ids[i];
    }
  }

  /** Repeating a creation under a stored group's name succeeds exactly for a permutation of its
      sources while all its members are stored. */
  lemma GroupAnswersIff(cfg: Config, w: World, name: string, sources: seq<string>, env: Env)
    requires name != "" && sources != [] && Find(w.res.groups, GroupName, name).Some? && |sources| <= |env.memberIDs|
    ensures var f, reply := Find(w.res.groups, GroupName, name).value, CreateGroup(cfg, w, name, sources, env).1;
      && (reply.GroupIs? <==>
            multiset(sources) == multiset(f.sourceVolumeIDs) && AllPresent(w.res.snapshots, f.snapshotIDs))
      && (reply.GroupIs? ==> reply.id == f.id)
      && (multiset(sources) != multiset(f.sourceVolumeIDs) ==> reply == Failed(AlreadyExists))
  {
    var f := Find(w.res.groups, GroupName, name).value;
    if AllPresent(w.res.snapshots, f.snapshotIDs) {
      MembersFound(w.res.snapshots, f.snapshotIDs);
    } else if Members(w.res.snapshots, f.snapshotIDs).Some? {
      MembersMissing(w.res.snapshots, f.snapshotIDs);
    }
  }

  /** Reading a stored group succeeds exactly for a permutation of its members while all are stored. */
  lemma GetAnswersIff(cfg: Config, w: World, id: string, ids: seq<string>)
    requires id != "" && Find(w.res.groups, GroupID, id).Some?
    ensures var f, reply := Find(w.res.groups, GroupID, id).value, GetGroup(cfg, w, id, ids).1;
      reply.GroupIs? <==> multiset(ids) == multiset(f.snapshotIDs) && AllPresent(w.res.snapshots, f.snapshotIDs)
  {
    var i := IndexBy(w.res.groups, GroupID, id);
    var f, h := w.res.groups[i], SortMembers(w, i, ids).res.groups[i];
    SortedLists(w, i, ids);
    if AllPresent(w.res.snapshots, f.snapshotIDs) {
      PresentUpToOrder(w.res.snapshots, f.snapshotIDs, h.snapshotIDs);
      MembersFound(w.res.snapshots, h.snapshotIDs);
    } else if Members(w.res.snapshots, h.snapshotIDs).Some? {
      MembersMissing(w.res.snapshots, h.snapshotIDs);
      PresentUpToOrder(w.res.snapshots, h.snapshotIDs, f.snapshotIDs);
    }
  }

  /** A stored group is what its name finds. */
  lemma FirstOfName(cfg: Config, w: World, g: Group)
    requires SoundWorld(cfg, w) && Find(w.res.groups, GroupID, g.id).Some?
    requires Find(w.res.groups, GroupID, g.id).value.name == g.name
    ensures Find(w.res.groups, GroupName, g.name) == Find(w.res.groups, GroupID, g.id)
  {
    var k := IndexBy(w.res.groups, GroupID, g.id);
    SoundMeansUnique(cfg, w);
    forall j | 0 <= j < k ensures GroupName(w.res.groups[j]) != g.name {
      assert GroupName(w.res.groups[j]) != GroupName(w.res.groups[k]);
    }
    IndexIs(w.res.groups, GroupName, g.name, k);
  }

  /** After a successful group creation, any run that deletes neither the group nor one of its members
      leaves it complete: its members are snapshots of exactly the requested volumes, and the name is
      answered with the same ID for every ordering of the sources and rejected for any other list. */
  lemma RepeatedCreateGroup(cfg: Config, w: World, e: Event, es: seq<Event>, sources: seq<string>, env: Env)
    requires SoundWorld(cfg, w) && Possible(cfg, w, e) && e.call.CreateGroupCall?
    requires Find(w.res.groups, GroupName, e.call.name).None? && StepReply(cfg, w, e).1.GroupIs?
    requires PossibleRun(cfg, Step(cfg, w, e), es)
    requires UnbrokenRun(cfg, Step(cfg, w, e), es, MadeGroup(e))
    requires sources != [] && |sources| <= |env.memberIDs|
    ensures var later := Run(cfg, Step(cfg, w, e), es);
      var f := Find(later.res.groups, GroupID, e.env.uuid);
      var reply := CreateGroup(cfg, later, e.call.name, sources, env).1;
      && f.Some? && AllPresent(later.res.snapshots, f.value.snapshotIDs)
      && multiset(VolumesOf(later.res.snapshots, f.value.snapshotIDs)) == multiset(e.call.sources)
      && if multiset(sources) == multiset(e.call.sources) then reply.GroupIs? && reply.id == StepReply(cfg, w, e).1.id
         else reply == Failed(AlreadyExists)
  {
    hide SoundWorld;
    var w1, g := Step(cfg, w, e), MadeGroup(e);
    CreatedComplete(cfg, w, e);
    StepSound(cfg, w, e);
    RunComplete(cfg, w1, es, g);
    var later := Run(cfg, w1, es);
    FirstOfName(cfg, later, g);
    GroupAnswersIff(cfg, later, g.name, sources, env);
    CompleteMatches(cfg, later, g);
  }

  function MadeGroup(e: Event): Group
    requires e.call.CreateGroupCall? && |e.call.sources| <= |e.env.memberIDs|
  {
    Group(e.call.name, e.env.uuid, e.env.memberIDs[..|e.call.sources|], e.call.sources, e.env.now, true)
  }

  lemma CompleteMatches(cfg: Config, w: World, g: Group)
    requires SoundWorld(cfg, w) && Complete(w, g)
    ensures var f := Find(w.res.groups, GroupID, g.id).value;
      multiset(VolumesOf(w.res.snapshots, f.snapshotIDs)) == multiset(g.sourceVolumeIDs)
  {
    assert GroupSound(w.res.snapshots, w.res.groups[IndexBy(w.res.groups, GroupID, g.id)]);
  }

  /** What a successful creation under a new name appends. */
  lemma CreatedAppends(cfg: Config, w: World, e: Event)
    requires SoundWorld(cfg, w) && Possible(cfg, w, e) && e.call.CreateGroupCall?
    requires Find(w.res.groups, GroupName, e.call.name).None? && StepReply(cfg, w, e).1.GroupIs?
    ensures var w1, c, env := Step(cfg, w, e), e.call, e.env;
      && w1.res.snapshots == w.res.snapshots + NewMembers(cfg, w.res.volumes, c.name, c.sources, 0, |c.sources|, env)
      && w1.res.groups == w.res.groups + [MadeGroup(e)]
  {
    hide SoundWorld, NewGroup, AddMembers, NewMembers;
    var c, env := e.call, e.env;
    var k := CreateGroupOutcome(cfg, w, c.name, c.sources, env);
  }

  lemma CreatedComplete(cfg: Config, w: World, e: Event)
    requires SoundWorld(cfg, w) && Possible(cfg, w, e) && e.call.CreateGroupCall?
    requires Find(w.res.groups, GroupName, e.call.name).None? && StepReply(cfg, w, e).1.GroupIs?
    ensures Complete(Step(cfg, w, e), MadeGroup(e))
  {
    hide SoundWorld, Step, StepReply, HasFree;
    var w1, g := Step(cfg, w, e), MadeGroup(e);
    CreatedAppends(cfg, w, e);
    AppendedGroupFound(w.res.groups, g);
    StepSound(cfg, w, e);
    SoundMeansUnique(cfg, w1);
    forall j | 0 <= j < |g.snapshotIDs| ensures Find(w1.res.snapshots, SnapshotID, g.snapshotIDs[j]).Some? {
      var i := |w.res.snapshots| + j;
      assert w1.res.snapshots[i].id == g.snapshotIDs[j];
      FoundAt(w1.res.snapshots, i);
    }
  }
}
