// What the group snapshot calls answer and change, in terms of the records: which members a creation
// makes and a deletion removes, the entries of every reply, and the code of every refusal.
module GroupAnswers {
  import opened Base
  import opened Lists
  import opened Sorting
  import opened State
  import opened ProjectIDs
  import opened Quota
  import opened Driver
  import opened Soundness
  import opened Reachable
  import opened Groups
  import opened Answers
  import opened SnapshotAnswers

  // ---------- making the members ----------

  /** The member of a group made of a source volume. */
  ghost predicate MemberTaken(cfg: Config, w: World, s: Snapshot, name: string, source: string, id: string, env: Env) {
    && s.name == name + "-" + source && s.id == id && s.groupID == env.uuid && s.volID == source
    && exists v :: v in w.res.volumes && TakenOf(cfg, s, v, env.now)
  }

  function WithSnapshots(w: World, made: seq<Snapshot>): Resources {
    w.res.(snapshots := w.res.snapshots + made)
  }

  ghost function PathsOf(made: seq<Snapshot>): set<string> { set s | s in made :: s.path }

  ghost predicate AllTaken(cfg: Config, w: World, made: seq<Snapshot>, name: string, sources: seq<string>, i: nat,
                           env: Env)
    requires i + |made| <= |sources| <= |env.memberIDs|
  {
    forall j :: 0 <= j < |made| ==> MemberTaken(cfg, w, made[j], name, sources[i + j], env.memberIDs[i + j], env)
  }

  /** The last good write of members i to k - 1 is that before member `last`. */
  ghost predicate WrittenTo(i: nat, last: nat, k: nat, writes: seq<bool>) {
    && i <= last <= k && (forall j :: last <= j < k ==> !Outcome(writes, j))
    && (last > i ==> Outcome(writes, last - 1))
  }

  /** Memory, disk and state file after the given members have been made, from the i-th on. */
  ghost function After(w: World, made: seq<Snapshot>, i: nat, last: nat): World
    requires i <= last <= i + |made|
  {
    w.(res := WithSnapshots(w, made),
       file := if last == i then w.file else Some(WithSnapshots(w, made[..last - i])),
       clean := if made == [] then w.clean else last == i + |made|,
       files := w.files + PathsOf(made))
  }

  lemma MemberMade(cfg: Config, w: World, name: string, source: string, i: nat, env: Env) returns (s: Snapshot)
    requires i < |env.memberIDs| && Absent(w.res.snapshots, SnapshotID, env.memberIDs[i])
    requires AddMember(cfg, w, name, source, i, env).1.None?
    ensures !NoVolume(w, source) && Outcome(env.archives, i)
    ensures MemberTaken(cfg, w, s, name, source, env.memberIDs[i], env) && s.id == env.memberIDs[i]
    ensures AddMember(cfg, w, name, source, i, env).0.res.volumes == w.res.volumes
    ensures AddMember(cfg, w, name, source, i, env).0 == After(w, [s], i, if Outcome(env.writes, i) then i + 1 else i)
  {
    hide IndexBy;
    var v := Find(w.res.volumes, VolumeID, source).value;
    assert v in w.res.volumes && v.id == source;
    s := MemberOf(cfg, name, env.uuid, v, source, env.memberIDs[i], env.now);
    PutThenDrop(w.res.snapshots, SnapshotID, s);
    assert PathsOf([s]) == {s.path} && [s][..1] == [s];
  }

  lemma MemberFails(cfg: Config, w: World, name: string, source: string, i: nat, env: Env)
    requires i < |env.memberIDs| && AddMember(cfg, w, name, source, i, env).1.Some?
    ensures var (w', failure) := AddMember(cfg, w, name, source, i, env);
      var path := cfg.stateDir + "/" + (env.memberIDs[i] + ".snap");
      if NoVolume(w, source) then w' == w && failure == Some(NotFound)
      else !Outcome(env.archives, i) && failure == Some(Unknown)
           && w' == w.(files := w.files + if env.remains then {path} else {})
  {
    hide IndexBy;
    assert forall v :: v in w.res.volumes && v.id == source ==> Find(w.res.volumes, VolumeID, source).Some?;
  }

  lemma AfterNext(w: World, s: Snapshot, made: seq<Snapshot>, i: nat, last: nat, writes: seq<bool>)
    requires WrittenTo(i + 1, last, i + 1 + |made|, writes)
    ensures var last' := if last > i + 1 || Outcome(writes, i) then last else i;
      && WrittenTo(i, last', i + 1 + |made|, writes)
      && After(After(w, [s], i, if Outcome(writes, i) then i + 1 else i), made, i + 1, last)
         == After(w, [s] + made, i, last')
  {
    var all := [s] + made;
    assert [s][..1] == [s];
    assert w.res.snapshots + [s] + made == w.res.snapshots + all;
    assert w.res.snapshots + [s] + made[..last - i - 1] == w.res.snapshots + all[..last - i];
    assert PathsOf(all) == PathsOf([s]) + PathsOf(made);
  }

  lemma TakenNext(cfg: Config, w: World, w1: World, s: Snapshot, made: seq<Snapshot>, name: string,
                  sources: seq<string>, i: nat, env: Env)
    requires i + 1 + |made| <= |sources| <= |env.memberIDs| && w1.res.volumes == w.res.volumes
    requires MemberTaken(cfg, w, s, name, sources[i], env.memberIDs[i], env)
    requires AllTaken(cfg, w1, made, name, sources, i + 1, env)
    ensures AllTaken(cfg, w, [s] + made, name, sources, i, env)
  {
    var all := [s] + made;
    forall j | 0 <= j < |all|
      ensures MemberTaken(cfg, w, all[j], name, sources[i + j], env.memberIDs[i + j], env)
    {
      if j > 0 {
        var k := j - 1;
        assert MemberTaken(cfg, w1, made[k], name, sources[i + 1 + k], env.memberIDs[i + 1 + k], env);
      }
    }
  }

  /** Members are made until a source is missing or an archive fails. An archive that fails can stay. */
  lemma {:induction false} MembersMade(cfg: Config, w: World, name: string, sources: seq<string>, i: nat, env: Env)
    returns (made: seq<Snapshot>, last: nat)
    requires i <= |sources| <= |env.memberIDs| && NoRepeats(env.memberIDs)
    requires forall j :: i <= j < |env.memberIDs| ==> Absent(w.res.snapshots, SnapshotID, env.memberIDs[j])
    ensures i + |made| <= |sources| && AllTaken(cfg, w, made, name, sources, i, env)
    ensures WrittenTo(i, last, i + |made|, env.writes)
    ensures var (w', failure), k := AddMembers(cfg, w, name, sources, i, env), i + |made|;
      var w1 := After(w, made, i, last);
      && (forall j :: i <= j < k ==> !NoVolume(w, sources[j]) && Outcome(env.archives, j))
      && if k == |sources| then w' == w1 && failure.None?
         else if NoVolume(w, sources[k]) then w' == w1 && failure == Some(NotFound)
         else
           && !Outcome(env.archives, k) && failure == Some(Unknown)
           && w' == w1.(files := w1.files +
                if env.remains then {cfg.stateDir + "/" + (env.memberIDs[k] + ".snap")} else {})
    decreases |sources| - i
  {
    hide IndexBy, MemberTaken, AllTaken, After, AddMember, WrittenTo;
    made, last := [], i;
    NothingMade(cfg, w, name, sources, i, env);
    if i < |sources| {
      var (w1, failure) := AddMember(cfg, w, name, sources[i], i, env);
      if failure.None? {
        var s := MemberMade(cfg, w, name, sources[i], i, env);
        StillNew(w, s, i, env);
        var later, l := MembersMade(cfg, w1, name, sources, i + 1, env);
        AfterNext(w, s, later, i, l, env.writes);
        TakenNext(cfg, w, w1, s, later, name, sources, i, env);
        made, last := [s] + later, if l > i + 1 || Outcome(env.writes, i) then l else i;
      } else {
        MemberFails(cfg, w, name, sources[i], i, env);
      }
    }
  }

  lemma NothingMade(cfg: Config, w: World, name: string, sources: seq<string>, i: nat, env: Env)
    requires i <= |sources| <= |env.memberIDs|
    ensures After(w, [], i, i) == w && AllTaken(cfg, w, [], name, sources, i, env)
    ensures WrittenTo(i, i, i, env.writes)
  {
    assert WithSnapshots(w, []) == w.res;
    assert PathsOf([]) == {};
  }

  lemma StillNew(w: World, s: Snapshot, i: nat, env: Env)
    requires i < |env.memberIDs| && s.id == env.memberIDs[i] && NoRepeats(env.memberIDs)
    requires forall j :: i <= j < |env.memberIDs| ==> Absent(w.res.snapshots, SnapshotID, env.memberIDs[j])
    ensures forall last, j :: i <= last <= i + 1 && i < j < |env.memberIDs| ==>
      Absent(After(w, [s], i, last).res.snapshots, SnapshotID, env.memberIDs[j])
  {
  }

  // ---------- CreateVolumeGroupSnapshot under a new name ----------

  ghost predicate NewMemberIDs(w: World, sources: seq<string>, env: Env) {
    && |sources| <= |env.memberIDs| && NoRepeats(env.memberIDs)
    && forall j :: 0 <= j < |env.memberIDs| ==> Absent(w.res.snapshots, SnapshotID, env.memberIDs[j])
  }

  /** A group that cannot be written is in memory all the same, and so are the members of one that fails. */
  lemma GroupCreation(cfg: Config, w: World, name: string, sources: seq<string>, env: Env)
    returns (made: seq<Snapshot>, last: nat)
    requires name != "" && sources != [] && (forall g :: g in w.res.groups ==> g.name != name && g.id != env.uuid)
    requires NewMemberIDs(w, sources, env)
    ensures |made| <= |sources| && AllTaken(cfg, w, made, name, sources, 0, env)
    ensures WrittenTo(0, last, |made|, env.writes)
    ensures forall j :: 0 <= j < |made| ==> !NoVolume(w, sources[j]) && Outcome(env.archives, j)
    ensures var (w', reply), k := Answer(cfg, w, CreateGroupCall(name, sources), env), |made|;
      var w1, ids := After(w, made, 0, last), env.memberIDs[..|sources|];
      if k < |sources|
      then && (NoVolume(w, sources[k]) || !Outcome(env.archives, k))
           && reply == Failed(if NoVolume(w, sources[k]) then NotFound else Unknown)
           && w' == w1.(files := w1.files +
                if !NoVolume(w, sources[k]) && env.remains
                then {cfg.stateDir + "/" + (env.memberIDs[k] + ".snap")} else {})
      else
        var g := Group(name := name, id := env.uuid, snapshotIDs := ids, sourceVolumeIDs := sources,
                       creationTime := env.now, ready := true);
        && (reply == Failed(Internal) <==> !env.written) && (reply.GroupIs? <==> env.written)
        && w' == w1.(res := w1.res.(groups := w.res.groups + [g]),
                     file := if env.written then Some(w'.res) else w1.file, clean := env.written)
  {
    hide IndexBy, AddMembers, AllTaken, WrittenTo, StepReply;
    made, last := MembersMade(cfg, w, name, sources, 0, env);
    var g := Group(name, env.uuid, env.memberIDs[..|sources|], sources, env.now, true);
    assert Answer(cfg, w, CreateGroupCall(name, sources), env) == NewGroup(cfg, w, name, sources, env) by {
      CreatesNew(cfg, w, name, sources, env);
    }
    PutThenDrop(w.res.groups, GroupID, g);
  }

  lemma CreatesNew(cfg: Config, w: World, name: string, sources: seq<string>, env: Env)
    requires name != "" && sources != [] && (forall g :: g in w.res.groups ==> g.name != name)
    requires |sources| <= |env.memberIDs|
    ensures Answer(cfg, w, CreateGroupCall(name, sources), env) == NewGroup(cfg, w, name, sources, env)
  {
    hide IndexBy, NewGroup;
  }

  /** The reply to a successful creation has an entry for each source in order: its ID finds a snapshot of
      that volume in the new state, and the entry shows that snapshot. */
  lemma GroupCreationReply(cfg: Config, w: World, name: string, sources: seq<string>, env: Env)
    requires name != "" && sources != [] && (forall g :: g in w.res.groups ==> g.name != name && g.id != env.uuid)
    requires NewMemberIDs(w, sources, env) && Unique(w.res.volumes, VolumeID)
    requires Answer(cfg, w, CreateGroupCall(name, sources), env).1.GroupIs?
    ensures var (w', reply) := Answer(cfg, w, CreateGroupCall(name, sources), env);
      && reply.id == env.uuid && reply.creationTime == env.now && reply.ready && |reply.members| == |sources|
      && forall i :: 0 <= i < |sources| ==>
           var l := reply.members[i];
           var s := Find(w'.res.snapshots, SnapshotID, l.id);
           s.Some? && s.value.volID == sources[i] && Shows(l, s.value) && l.groupID == env.uuid
  {
    hide IndexBy, AddMembers, WrittenTo, StepReply, TakenOf;
    var made, last := GroupCreation(cfg, w, name, sources, env);
    var (w', reply) := Answer(cfg, w, CreateGroupCall(name, sources), env);
    CreatesNew(cfg, w, name, sources, env);
    forall i | 0 <= i < |sources|
      ensures var l := reply.members[i];
        Find(w'.res.snapshots, SnapshotID, l.id) == Some(made[i]) && Shows(l, made[i])
    {
      assert MemberTaken(cfg, w, made[i], name, sources[0 + i], env.memberIDs[0 + i], env);
      EntryShows(cfg, w, made[i], name, sources[i], env.memberIDs[i], env);
      MadeFound(cfg, w, made, name, sources, i, env);
    }
  }

  lemma EntryShows(cfg: Config, w: World, s: Snapshot, name: string, source: string, id: string, env: Env)
    requires Unique(w.res.volumes, VolumeID) && MemberTaken(cfg, w, s, name, source, id, env)
    ensures Shows(NewListing(w.res.volumes, source, id, env), s)
  {
    hide IndexBy;
    var v :| v in w.res.volumes && TakenOf(cfg, s, v, env.now);
    FoundByKey(w.res.volumes, VolumeID, v);
  }

  lemma MadeFound(cfg: Config, w: World, made: seq<Snapshot>, name: string, sources: seq<string>, i: nat, env: Env)
    requires i < |made| <= |sources| && NewMemberIDs(w, sources, env)
    requires AllTaken(cfg, w, made, name, sources, 0, env)
    ensures Find(w.res.snapshots + made, SnapshotID, env.memberIDs[i]) == Some(made[i])
  {
    hide IndexBy;
    var all, n := w.res.snapshots + made, |w.res.snapshots|;
    forall j | 0 <= j < i ensures made[j].id != env.memberIDs[i] {
      assert MemberTaken(cfg, w, made[j], name, sources[0 + j], env.memberIDs[0 + j], env);
    }
    assert MemberTaken(cfg, w, made[i], name, sources[0 + i], env.memberIDs[0 + i], env);
    IndexIs(all, SnapshotID, env.memberIDs[i], n + i);
  }

  lemma InvalidGroupCalls(cfg: Config, w: World, name: string, sources: seq<string>, ids: seq<string>, env: Env)
    requires |sources| <= |env.memberIDs|
    ensures name == "" || sources == [] ==>
      Answer(cfg, w, CreateGroupCall(name, sources), env) == (w, Failed(InvalidArgument))
    ensures Answer(cfg, w, DeleteGroupCall(""), env) == (w, Failed(InvalidArgument))
    ensures Answer(cfg, w, GetGroupCall("", ids), env) == (w, Failed(InvalidArgument))
  {
  }

  lemma MissingGroup(cfg: Config, w: World, id: string, ids: seq<string>, env: Env)
    requires id != "" && forall g :: g in w.res.groups ==> g.id != id
    ensures Answer(cfg, w, DeleteGroupCall(id), env) == (w, Done)
    ensures Answer(cfg, w, GetGroupCall(id, ids), env) == (w, Failed(NotFound))
  {
    hide IndexBy;
  }

  // ---------- describing a stored group ----------

  /** The lists have the same entries equally often. */
  ghost predicate Permuted(a: seq<string>, b: seq<string>) { multiset(a) == multiset(b) }

  /** Comparing leaves a list sorted when the lengths agree, and as it was when they do not. */
  ghost predicate Compared(before: seq<string>, other: seq<string>, after: seq<string>) {
    if |before| == |other| then Permuted(before, after) && SortedBy(after, Self) else after == before
  }

  lemma ComparedSorts(a: seq<string>, b: seq<string>)
    ensures Compared(a, b, SortedUnlessLengthDiffers(a, b))
  {
    SortSorted(a, Self);
  }

  ghost predicate Stored(ss: seq<Snapshot>, id: string) { exists s :: s in ss && s.id == id }

  /** A member's entry has its record's size, creation time, readiness and group. */
  ghost predicate Describes(ss: seq<Snapshot>, id: string, l: Listing) {
    exists s :: s in ss && s.id == id
      && l.size == s.size && l.creationTime == s.creationTime && l.ready == s.ready && l.groupID == s.groupID
  }

  /** And, in a full entry, its ID and source volume. */
  ghost predicate Names(ss: seq<Snapshot>, id: string, l: Listing) {
    l.id == id && exists s :: s in ss && s.id == id && l.volID == s.volID
  }

  lemma {:induction false} MembersAre(ss: seq<Snapshot>, ids: seq<string>)
    ensures var ms := Members(ss, ids);
      && (ms.Some? <==> forall i :: 0 <= i < |ids| ==> Stored(ss, ids[i]))
      && (ms.Some? ==>
            |ms.value| == |ids| && forall i :: 0 <= i < |ids| ==> ms.value[i] in ss && ms.value[i].id == ids[i])
  {
    hide IndexBy;
    if ids != [] {
      var front, last := ids[..|ids| - 1], ids[|ids| - 1];
      MembersAre(ss, front);
      LastStored(ss, last);
      assert forall i :: 0 <= i < |ids| - 1 ==> front[i] == ids[i];
    }
  }

  lemma LastStored(ss: seq<Snapshot>, id: string)
    ensures var f := Find(ss, SnapshotID, id);
      (f.Some? <==> Stored(ss, id)) && (f.Some? ==> f.value in ss && f.value.id == id)
  {
    hide IndexBy;
  }

  /** Repeating a creation: f is the first group of that name. The entries leave out IDs and volumes. */
  lemma RepeatedGroup(cfg: Config, w: World, i: nat, sources: seq<string>, env: Env)
    requires i < |w.res.groups| && w.res.groups[i].name != "" && sources != [] && |sources| <= |env.memberIDs|
    requires forall j :: 0 <= j < i ==> w.res.groups[j].name != w.res.groups[i].name
    ensures var f, ss := w.res.groups[i], w.res.snapshots;
      var (w', reply) := Answer(cfg, w, CreateGroupCall(f.name, sources), env);
      var complete := forall j :: 0 <= j < |f.snapshotIDs| ==> Stored(ss, f.snapshotIDs[j]);
      && (reply == Failed(AlreadyExists) <==> !Permuted(sources, f.sourceVolumeIDs))
      && (reply == Failed(NotFound) <==> Permuted(sources, f.sourceVolumeIDs) && !complete)
      && (reply.GroupIs? <==> Permuted(sources, f.sourceVolumeIDs) && complete)
      && (reply.GroupIs? ==>
            && reply.id == f.id && reply.creationTime == f.creationTime && |reply.members| == |f.snapshotIDs|
            && (reply.ready <==> forall j :: 0 <= j < |reply.members| ==> reply.members[j].ready)
            && forall j :: 0 <= j < |f.snapshotIDs| ==>
                 var l := reply.members[j];
                 l.id == "" && l.volID == "" && Describes(ss, f.snapshotIDs[j], l))
      && exists t :: Compared(f.sourceVolumeIDs, sources, t)
           && w' == w.(res := w.res.(groups := w.res.groups[i := f.(sourceVolumeIDs := t)]))
  {
    hide IndexBy, SortedUnlessLengthDiffers, Members, Compared, StepReply;
    var f := w.res.groups[i];
    IndexIs(w.res.groups, GroupName, f.name, i);
    AnswersKnown(cfg, w, i, sources, env);
    MembersAre(w.res.snapshots, f.snapshotIDs);
    var ms := Members(w.res.snapshots, f.snapshotIDs);
    if ms.Some? {
      EntriesReady(ms.value);
    }
    ComparedSorts(f.sourceVolumeIDs, sources);
  }

  lemma EntriesReady(ms: seq<Snapshot>)
    ensures var entries := Listings(ms, false);
      AllReady(ms) <==> forall j :: 0 <= j < |entries| ==> entries[j].ready
  {
    var entries := Listings(ms, false);
    assert forall j :: 0 <= j < |ms| ==> entries[j].ready == ms[j].ready;
  }

  lemma AnswersKnown(cfg: Config, w: World, i: nat, sources: seq<string>, env: Env)
    requires i < |w.res.groups| && w.res.groups[i].name != "" && sources != [] && |sources| <= |env.memberIDs|
    requires i == IndexBy(w.res.groups, GroupName, w.res.groups[i].name)
    ensures Answer(cfg, w, CreateGroupCall(w.res.groups[i].name, sources), env) == KnownGroup(cfg, w, i, sources)
  {
    hide IndexBy, KnownGroup;
  }

  /** Reading a group: f is the first group of that ID. The entries follow the list that comparing leaves. */
  lemma GroupRead(cfg: Config, w: World, i: nat, ids: seq<string>, env: Env) returns (t: seq<string>)
    requires i < |w.res.groups| && w.res.groups[i].id != ""
    requires forall j :: 0 <= j < i ==> w.res.groups[j].id != w.res.groups[i].id
    ensures Compared(w.res.groups[i].snapshotIDs, ids, t)
    ensures var f, ss := w.res.groups[i], w.res.snapshots;
      var (w', reply) := Answer(cfg, w, GetGroupCall(f.id, ids), env);
      var complete := forall j :: 0 <= j < |t| ==> Stored(ss, t[j]);
      && w' == w.(res := w.res.(groups := w.res.groups[i := f.(snapshotIDs := t)]))
      && (reply == Failed(InvalidArgument) <==> !Permuted(ids, f.snapshotIDs))
      && (reply == Failed(NotFound) <==> Permuted(ids, f.snapshotIDs) && !complete)
      && (reply.GroupIs? <==> Permuted(ids, f.snapshotIDs) && complete)
      && (reply.GroupIs? ==>
            && reply.id == f.id && reply.creationTime == f.creationTime && reply.ready == f.ready
            && |reply.members| == |t|
            && forall j :: 0 <= j < |t| ==> Names(ss, t[j], reply.members[j]) && Describes(ss, t[j], reply.members[j]))
  {
    hide IndexBy, SortedUnlessLengthDiffers, Members, Compared, StepReply;
    var f := w.res.groups[i];
    t := SortedUnlessLengthDiffers(f.snapshotIDs, ids);
    IndexIs(w.res.groups, GroupID, f.id, i);
    AnswersRead(cfg, w, i, ids, env);
    MembersAre(w.res.snapshots, t);
    ComparedSorts(f.snapshotIDs, ids);
  }

  lemma AnswersRead(cfg: Config, w: World, i: nat, ids: seq<string>, env: Env)
    requires i < |w.res.groups| && w.res.groups[i].id != ""
    requires i == IndexBy(w.res.groups, GroupID, w.res.groups[i].id)
    ensures Answer(cfg, w, GetGroupCall(w.res.groups[i].id, ids), env) == ReadGroup(w, i, ids)
  {
    hide IndexBy, ReadGroup;
  }

  // ---------- DeleteVolumeGroupSnapshot ----------

  ghost function ArchivesGone(cfg: Config, ids: seq<string>, i: nat, n: nat, env: Env): set<string>
    requires n <= |ids|
  {
    set j | i <= j < n && Outcome(env.removals, j) :: cfg.stateDir + "/" + (ids[j] + ".snap")
  }

  /** One of the listed snapshots is stored. */
  ghost predicate SomeStored(ss: seq<Snapshot>, ids: seq<string>) { exists id :: id in ids && Stored(ss, id) }

  /** The state after the members i to n - 1 have been deleted, where the writes before the k-th succeeded. */
  ghost function Emptied(cfg: Config, w: World, ids: seq<string>, i: nat, k: nat, n: nat, env: Env): World
    requires i <= k <= n <= |ids|
  {
    var wrote := SomeStored(w.res.snapshots, ids[i..k]);
    w.(res := w.res.(snapshots := Without(w.res.snapshots, ids[i..n])),
       file := if wrote then Some(w.res.(snapshots := Without(w.res.snapshots, ids[i..k]))) else w.file,
       clean := k == n && (wrote || w.clean),
       files := w.files - ArchivesGone(cfg, ids, i, n, env))
  }

  lemma MemberDropped(cfg: Config, w: World, ids: seq<string>, i: nat, env: Env)
    requires Unique(w.res.snapshots, SnapshotID) && i < |ids|
    ensures var stops := Stored(w.res.snapshots, ids[i]) && !Outcome(env.writes, i);
      DropAt(cfg, w, ids, i, env) == Emptied(cfg, w, ids, i, if stops then i else i + 1, i + 1, env)
  {
    hide IndexBy, Without, Unique;
    var ss, id := w.res.snapshots, ids[i];
    LastStored(ss, id);
    DropIsWithout(ss, id);
    assert ids[i..i + 1] == [id] && ids[i..i] == [];
    assert ArchivesGone(cfg, ids, i, i + 1, env)
        == if Outcome(env.removals, i) then {cfg.stateDir + "/" + (id + ".snap")} else {};
  }

  lemma StillStored(ss: seq<Snapshot>, gone: string, id: string)
    requires Unique(ss, SnapshotID) && id != gone
    ensures Stored(Without(ss, [gone]), id) <==> Stored(ss, id)
  {
    hide IndexBy, Without, Stored;
    DropIsWithout(ss, gone);
    FindOther(ss, SnapshotID, gone, id);
    LastStored(ss, id);
    LastStored(Drop(ss, SnapshotID, gone), id);
  }

  lemma NoneStored(ss: seq<Snapshot>, ids: seq<string>)
    requires !SomeStored(ss, ids)
    ensures Without(ss, ids) == ss
  {
    assert forall i :: 0 <= i < |ss| ==> Stored(ss, ss[i].id);
    WithoutUnlisted(ss, ids);
  }

  lemma SomeStoredNext(ss: seq<Snapshot>, rest: seq<Snapshot>, id: string, ids: seq<string>)
    requires forall x :: x in ids ==> (Stored(rest, x) <==> Stored(ss, x))
    ensures SomeStored(ss, [id] + ids) <==> Stored(ss, id) || SomeStored(rest, ids)
  {
    hide Stored;
    assert id in [id] + ids && forall x :: x in ids ==> x in [id] + ids;
  }

  lemma EmptiedNext(cfg: Config, w: World, ids: seq<string>, i: nat, k: nat, n: nat, env: Env)
    requires Unique(w.res.snapshots, SnapshotID) && NoRepeats(ids) && i + 1 <= k <= n <= |ids|
    ensures var w1 := Emptied(cfg, w, ids, i, i + 1, i + 1, env);
      Emptied(cfg, w1, ids, i + 1, k, n, env) == Emptied(cfg, w, ids, i, k, n, env)
  {
    hide IndexBy, Without, Unique, Stored;
    var ss, id := w.res.snapshots, ids[i];
    forall m | i + 1 <= m <= |ids| ensures ids[i..m] == [id] + ids[i + 1..m] {}
    WithoutTwice(ss, [id], ids[i + 1..n]);
    WithoutTwice(ss, [id], ids[i + 1..k]);
    forall x | x in ids[i + 1..k] ensures Stored(Without(ss, [id]), x) <==> Stored(ss, x) {
      StillStored(ss, id, x);
    }
    assert ids[i..i + 1] == [id];
    if !SomeStored(Without(ss, [id]), ids[i + 1..k]) {
      NoneStored(Without(ss, [id]), ids[i + 1..k]);
    }
    SomeStoredNext(ss, Without(ss, [id]), id, ids[i + 1..k]);
    assert ArchivesGone(cfg, ids, i, n, env)
        == ArchivesGone(cfg, ids, i, i + 1, env) + ArchivesGone(cfg, ids, i + 1, n, env);
  }

  /** Members are deleted until the removal of a stored one cannot be written, which still takes that one
      out of memory. */
  lemma {:induction false} MembersDropped(cfg: Config, w: World, ids: seq<string>, i: nat, env: Env) returns (k: nat)
    requires Unique(w.res.snapshots, SnapshotID) && NoRepeats(ids) && i <= |ids|
    ensures i <= k <= |ids|
    ensures forall j :: i <= j < k && Stored(w.res.snapshots, ids[j]) ==> Outcome(env.writes, j)
    ensures k < |ids| ==> Stored(w.res.snapshots, ids[k]) && !Outcome(env.writes, k)
    ensures DropMembers(cfg, w, ids, i, env)
         == (Emptied(cfg, w, ids, i, k, if k < |ids| then k + 1 else k, env), k == |ids|)
    decreases |ids| - i
  {
    hide Emptied, DropAt, Unique, Stored, IndexBy;
    k := i;
    if i == |ids| {
      NothingDropped(cfg, w, ids, env);
    } else {
      var ss, w1 := w.res.snapshots, DropAt(cfg, w, ids, i, env);
      MemberDropped(cfg, w, ids, i, env);
      LastStored(ss, ids[i]);
      if !Stored(ss, ids[i]) || Outcome(env.writes, i) {
        EmptiedList(cfg, w, ids, i, env);
        forall j | i < j < |ids| ensures Stored(w1.res.snapshots, ids[j]) <==> Stored(ss, ids[j]) {
          StillStored(ss, ids[i], ids[j]);
        }
        k := MembersDropped(cfg, w1, ids, i + 1, env);
        EmptiedNext(cfg, w, ids, i, k, if k < |ids| then k + 1 else k, env);
      }
    }
  }

  lemma EmptiedList(cfg: Config, w: World, ids: seq<string>, i: nat, env: Env)
    requires i < |ids| && Unique(w.res.snapshots, SnapshotID)
    ensures var ss := Emptied(cfg, w, ids, i, i + 1, i + 1, env).res.snapshots;
      ss == Without(w.res.snapshots, [ids[i]]) && Unique(ss, SnapshotID)
  {
    hide IndexBy, Without;
    assert ids[i..i + 1] == [ids[i]];
    DropIsWithout(w.res.snapshots, ids[i]);
    DropUnique(w.res.snapshots, SnapshotID, ids[i], SnapshotID);
  }

  lemma NothingDropped(cfg: Config, w: World, ids: seq<string>, env: Env)
    ensures Emptied(cfg, w, ids, |ids|, |ids|, |ids|, env) == w
  {
    assert ids[|ids|..|ids|] == [];
    WithoutUnlisted(w.res.snapshots, []);
    assert ArchivesGone(cfg, ids, |ids|, |ids|, env) == {};
  }

  /** Deleting a stored group succeeds exactly when the removal of every stored member and of the group can
      be written. Up to a failure everything is gone, the group only at the end. */
  lemma GroupDeletion(cfg: Config, w: World, i: nat, env: Env) returns (k: nat)
    requires i < |w.res.groups| && w.res.groups[i].id != ""
    requires forall j :: 0 <= j < i ==> w.res.groups[j].id != w.res.groups[i].id
    requires Unique(w.res.snapshots, SnapshotID) && NoRepeats(w.res.groups[i].snapshotIDs)
    ensures var ids := w.res.groups[i].snapshotIDs;
      && k <= |ids| && (k < |ids| ==> Stored(w.res.snapshots, ids[k]) && !Outcome(env.writes, k))
      && forall j :: 0 <= j < k && Stored(w.res.snapshots, ids[j]) ==> Outcome(env.writes, j)
    ensures var ids, gs := w.res.groups[i].snapshotIDs, w.res.groups;
      var (w', reply) := Answer(cfg, w, DeleteGroupCall(gs[i].id), env);
      if k < |ids| then w' == Emptied(cfg, w, ids, 0, k, k + 1, env) && reply == Failed(Internal)
      else
        var w1 := Emptied(cfg, w, ids, 0, k, k, env);
        var res := w1.res.(groups := gs[..i] + gs[i + 1..]);
        && reply == (if env.written then Done else Failed(Internal))
        && w' == w1.(res := res, file := if env.written then Some(res) else w1.file, clean := env.written)
  {
    hide IndexBy, StepReply, DropMembers, Stored, Unique;
    var g := w.res.groups[i];
    IndexIs(w.res.groups, GroupID, g.id, i);
    AnswersDelete(cfg, w, g.id, env);
    k := MembersDropped(cfg, w, g.snapshotIDs, 0, env);
  }

  lemma AnswersDelete(cfg: Config, w: World, id: string, env: Env)
    ensures Answer(cfg, w, DeleteGroupCall(id), env) == DeleteGroup(cfg, w, id, env)
  {
    hide DeleteGroup;
  }
}
