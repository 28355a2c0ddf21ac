// The quota table: directory -> project ID and cap, kept in memory and mirrored to the projects file.
module Quota {
  import opened Base
  import opened ProjectIDs
  import opened ProjectsFile

  // ---------- what each operation does to the table ----------

  ghost function Added(ds: Directories, dir: string, cap: string, ok: bool): Directories {
    if ok then ds[dir := Info(NextID(ds), cap)] else ds - {dir}
  }

  function Resized(ds: Directories, dir: string, cap: string): Directories {
    if dir in ds then ds[dir := Info(ds[dir].id, cap)] else ds
  }

  /** The text is a printout of the table, in some visiting order. */
  ghost predicate Mirrors(text: string, ds: Directories) {
    exists order :: IsOrder(order, ds) && text == Print(order, ds)
  }

  // ---------- table and file ----------

  /** Without a quota table the driver leaves the projects file alone. With one, `clean` says that
      the file holds the table: nothing has changed since the last write, and that one succeeded. */
  datatype Quotas = Disabled(text: string) | Enabled(table: Directories, text: string, clean: bool)

  function TableOf(q: Quotas): Directories { if q.Enabled? then q.table else map[] }

  /** What the environment decides: visiting order of the map, commands, and each dump by its place. */
  datatype Outcomes = Outcomes(
    visit: Visit,
    projectOK: bool,
    limitOK: bool,
    limitWritten: bool,
    addWritten: bool,
    removeWritten: bool,
    available: bool,
    readOK: bool,
    failing: set<string>,
    restoreWrites: seq<bool>)

  function Dumped(q: Quotas, written: bool, visit: Visit): Quotas
    requires q.Enabled?
  {
    if written then Enabled(q.table, Print(visit(q.table), q.table), true) else q.(clean := false)
  }

  function Changed(q: Quotas, ds: Directories): Quotas
    requires q.Enabled?
  {
    Enabled(ds, q.text, q.clean && ds == q.table)
  }

  /** Registers a directory under a new project ID; if the command fails it ends up unregistered. */
  ghost function Adding(q: Quotas, dir: string, cap: string, o: Outcomes): Quotas {
    if q.Disabled? then q
    else
      var q1 := Changed(q, Added(q.table, dir, cap, o.projectOK));
      if !o.projectOK then q1
      else Dumped(if o.limitOK then Dumped(q1, o.limitWritten, o.visit) else q1, o.addWritten, o.visit)
  }

  function Removing(q: Quotas, dir: string, o: Outcomes): Quotas {
    if q.Disabled? then q else Dumped(Changed(q, q.table - {dir}), o.removeWritten, o.visit)
  }

  /** Changes a cap and keeps the ID. The table changes even when the command then fails. */
  function Resizing(q: Quotas, dir: string, cap: string, o: Outcomes): (Quotas, bool) {
    if q.Disabled? then (q, true)
    else if dir !in q.table then (q, false)
    else
      var q1 := Changed(q, Resized(q.table, dir, cap));
      if o.limitOK then (Dumped(q1, o.limitWritten, o.visit), o.limitWritten) else (q1, false)
  }

  /** Start-up, from the i-th directory on: drops directories that are gone and applies the limits
      of the others, dumping after each. The first failure ends it. */
  function RestoreFrom(q: Quotas, order: seq<string>, i: nat, existing: set<string>, o: Outcomes): (r: (Quotas, bool))
    requires q.Enabled? && i <= |order|
    ensures r.0.Enabled?
    decreases |order| - i
  {
    var written := Outcome(o.restoreWrites, i);
    if i == |order| then (Dumped(q, written, o.visit), written)
    else if order[i] !in existing then
      RestoreFrom(Dumped(Changed(q, q.table - {order[i]}), written, o.visit), order, i + 1, existing, o)
    else if order[i] in o.failing then (q, false)
    else if !written then (Dumped(q, false, o.visit), false)
    else RestoreFrom(Dumped(q, true, o.visit), order, i + 1, existing, o)
  }

  /** What the start-up reads from the projects file: nothing when it cannot be read. */
  function ReadTable(text: string, existing: set<string>, o: Outcomes): Directories {
    if o.readOK then Parse(text, existing) else map[]
  }

  /** The quota table after a start: none when XFS quotas are not available or cannot be restored. */
  function Started(text: string, existing: set<string>, o: Outcomes): Quotas {
    if !o.available then Disabled(text)
    else
      var ds := ReadTable(text, existing, o);
      var (q, ok) := RestoreFrom(Enabled(ds, text, false), o.visit(ds), 0, existing, o);
      if ok then q else Disabled(q.text)
  }

  // ---------- the object ----------

  /** The quota table, or the empty one that does nothing where there are no XFS quotas. */
  class Quotaer {
    const enabled: bool
    var directories: Directories
    var file: string
    ghost var clean: bool

    ghost function View(): Quotas
      reads this
    {
      if enabled then Enabled(directories, file, clean) else Disabled(file)
    }

    constructor (ds: Directories, file: string)
      ensures View() == Enabled(ds, file, false)
    {
      enabled, directories, this.file, clean := true, ds, file, false;
    }

    constructor Empty(file: string)
      ensures View() == Disabled(file)
    {
      enabled, directories, this.file, clean := false, map[], file, false;
    }

    method Dump(written: bool, visit: Visit) returns (ok: bool)
      requires enabled
      modifies this`file, this`clean
      ensures View() == Dumped(old(View()), written, visit)
      ensures ok == written
    {
      if written {
        file := ToString(directories, visit(directories));
      }
      clean := written;
      ok := written;
    }

    method AddProject(dir: string, cap: string, o: Outcomes) returns (id: uint16, ok: bool)
      requires HasFree(TableOf(View()))
      modifies this
      ensures View() == Adding(old(View()), dir, cap, o)
      ensures ok && enabled ==> id == NextID(old(directories)) && Mirrors(file, directories)
      ensures ok <==> !enabled || (o.projectOK && o.addWritten)
    {
      hide IsOrder, Mirrors, HasFree, Resizing, Dumped, Free, LeastFree;
      if !enabled {
        return 0, true;
      }
      id := GenerateID(directories);
      ghost var before := directories;
      directories := directories[dir := Info(id, cap)];
      clean := clean && directories == before;
      if !o.projectOK {
        assert directories - {dir} == before - {dir};
        directories := directories - {dir};
        clean := old(clean) && directories == before;
        return 0, false;
      }
      LimitOfNew(View(), dir, cap, o);
      var limited := UpdateQuota(dir, cap, o);
      ghost var q := View();
      ok := Dump(o.addWritten, o.visit);
      DumpedMirrors(q, o.visit);
    }

    method RemoveProject(dir: string, o: Outcomes) returns (ok: bool)
      modifies this
      ensures View() == Removing(old(View()), dir, o)
      ensures ok <==> !enabled || o.removeWritten
    {
      if !enabled {
        return true;
      }
      clean := clean && directories - {dir} == directories;
      directories := directories - {dir};
      ok := Dump(o.removeWritten, o.visit);
    }

    method UpdateQuota(dir: string, cap: string, o: Outcomes) returns (ok: bool)
      modifies this
      ensures (View(), ok) == Resizing(old(View()), dir, cap, o)
    {
      if !enabled {
        return true;
      }
      if dir !in directories {
        return false;
      }
      ghost var before := directories;
      directories := directories[dir := Info(directories[dir].id, cap)];
      clean := clean && directories == before;
      if !o.limitOK {
        return false;
      }
      ok := Dump(o.limitWritten, o.visit);
    }

    /** Ranges over the table as it was read, in the order in which the map is visited. */
    method RestoreQuotas(existing: set<string>, o: Outcomes) returns (ok: bool)
      requires enabled
      modifies this
      ensures (View(), ok) == RestoreFrom(old(View()), o.visit(old(directories)), 0, existing, o)
    {
      hide RestoreFrom, IsOrder, Removing, Resizing, Dumped;
      var order := o.visit(directories);
      InOrder(order, directories);
      var i := 0;
      while i < |order|
        invariant i <= |order|
        invariant forall j :: i <= j < |order| ==> order[j] in directories
        invariant RestoreFrom(View(), order, i, existing, o) == RestoreFrom(old(View()), order, 0, existing, o)
      {
        var d, written := order[i], Outcome(o.restoreWrites, i);
        if d !in existing {
          RestoreDrops(View(), order, i, existing, o);
          var removed := RemoveProject(d, o.(removeWritten := written));
        } else {
          RestoreLimits(View(), order, i, existing, o);
          var updated := UpdateQuota(d, directories[d].cap, o.(limitOK := d !in o.failing, limitWritten := written));
          if !updated {
            return false;
          }
        }
        i := i + 1;
      }
      RestoreEnds(View(), order, existing, o);
      ok := Dump(Outcome(o.restoreWrites, i), o.visit);
    }
  }

  /** Setting the cap that the table has already only dumps it. */
  lemma LimitOfNew(q: Quotas, dir: string, cap: string, o: Outcomes)
    requires q.Enabled? && dir in q.table && q.table[dir].cap == cap
    ensures Resizing(q, dir, cap, o).0 == if o.limitOK then Dumped(q, o.limitWritten, o.visit) else q
    ensures Dumped(q, o.limitWritten, o.visit).Enabled? && Dumped(q, o.limitWritten, o.visit).table == q.table
  {
    hide IsOrder;
    assert Resized(q.table, dir, cap) == q.table;
  }

  lemma InOrder(order: seq<string>, ds: Directories)
    requires IsOrder(order, ds)
    ensures forall j :: 0 <= j < |order| ==> order[j] in ds
    ensures forall i, j :: 0 <= i < j < |order| ==> order[i] != order[j]
  {
    assert forall j :: 0 <= j < |order| ==> order[j] in order;
  }

  // One pass of the loop, as the operations it calls see it.
  lemma RestoreDrops(q: Quotas, order: seq<string>, i: nat, existing: set<string>, o: Outcomes)
    requires q.Enabled? && i < |order| && order[i] !in existing
    ensures var q1 := Removing(q, order[i], o.(removeWritten := Outcome(o.restoreWrites, i)));
      && q1.Enabled? && q1.table == q.table - {order[i]}
      && RestoreFrom(q, order, i, existing, o) == RestoreFrom(q1, order, i + 1, existing, o)
  {
  }

  lemma RestoreLimits(q: Quotas, order: seq<string>, i: nat, existing: set<string>, o: Outcomes)
    requires q.Enabled? && i < |order| && order[i] in existing && order[i] in q.table
    ensures var d, written := order[i], Outcome(o.restoreWrites, i);
      var (q1, ok) := Resizing(q, d, q.table[d].cap, o.(limitOK := d !in o.failing, limitWritten := written));
      && q1.Enabled? && q1.table == q.table
      && RestoreFrom(q, order, i, existing, o) == if ok then RestoreFrom(q1, order, i + 1, existing, o) else (q1, false)
  {
    hide IsOrder;
    assert Resized(q.table, order[i], q.table[order[i]].cap) == q.table;
  }

  lemma RestoreEnds(q: Quotas, order: seq<string>, existing: set<string>, o: Outcomes)
    requires q.Enabled?
    ensures var written := Outcome(o.restoreWrites, |order|);
      RestoreFrom(q, order, |order|, existing, o) == (Dumped(q, written, o.visit), written)
  {
  }

  /** Start-up on a projects file. A table that cannot be restored is replaced by the empty one. */
  method NewQuotaer(text: string, existing: set<string>, o: Outcomes) returns (q: Quotaer)
    ensures fresh(q) && q.View() == Started(text, existing, o)
  {
    if !o.available {
      q := new Quotaer.Empty(text);
      return;
    }
    var ds: Directories := map[];
    if o.readOK {
      ds := GetExistingIDs(text, existing);
    }
    q := new Quotaer(ds, text);
    var ok := q.RestoreQuotas(existing, o);
    if !ok {
      q := new Quotaer.Empty(q.file);
    }
  }

  // ---------- start-up ----------

  ghost predicate SubTable(t: Directories, ds: Directories) {
    forall d :: d in t ==> d in ds && t[d] == ds[d]
  }

  /** The file is as it was, or a printout of part of the table. */
  ghost predicate TextWithin(after: string, before: string, ds: Directories) {
    after == before || exists t :: SubTable(t, ds) && Mirrors(after, t)
  }

  lemma DumpedMirrors(q: Quotas, visit: Visit)
    requires q.Enabled?
    ensures Mirrors(Dumped(q, true, visit).text, q.table)
    ensures Dumped(q, true, visit).table == q.table
  {
    assert IsOrder(visit(q.table), q.table);
  }

  /** A restoration that succeeds leaves the directories that still exist and a file that holds
      them. One that fails leaves a file from before or a printout of part of the table. */
  lemma {:induction false} RestoreOutcome(q: Quotas, order: seq<string>, i: nat, existing: set<string>, o: Outcomes)
    requires q.Enabled? && i <= |order|
    requires forall d :: d in q.table ==> d in existing || d in order[i..]
    ensures var (r, ok) := RestoreFrom(q, order, i, existing, o);
      && r.Enabled? && TextWithin(r.text, q.text, q.table)
      && (ok ==> r == Enabled(Existing(q.table, existing), Print(o.visit(r.table), r.table), true))
    decreases |order| - i
  {
    hide Mirrors, Print, IsOrder;
    DumpedMirrors(q, o.visit);
    assert SubTable(q.table, q.table);
    if i == |order| {
      assert Existing(q.table, existing) == q.table;
    } else {
      var written := Outcome(o.restoreWrites, i);
      assert order[i..] == [order[i]] + order[i + 1..];
      if order[i] !in existing {
        var q1 := Changed(q, q.table - {order[i]});
        DumpedMirrors(q1, o.visit);
        assert SubTable(q1.table, q.table);
        RestoreOutcome(Dumped(q1, written, o.visit), order, i + 1, existing, o);
        assert Existing(q1.table, existing) == Existing(q.table, existing);
      } else if order[i] !in o.failing && written {
        RestoreOutcome(Dumped(q, true, o.visit), order, i + 1, existing, o);
      }
    }
  }

  /** When a restoration succeeds: every dump it depends on and every limit it sets does. */
  lemma {:induction false} RestoreSucceedsIff(q: Quotas, order: seq<string>, i: nat, existing: set<string>, o: Outcomes)
    requires q.Enabled? && i <= |order|
    ensures RestoreFrom(q, order, i, existing, o).1 <==>
      && Outcome(o.restoreWrites, |order|)
      && forall j :: i <= j < |order| && order[j] in existing ==>
           order[j] !in o.failing && Outcome(o.restoreWrites, j)
    decreases |order| - i
  {
    if i < |order| {
      var written := Outcome(o.restoreWrites, i);
      if order[i] !in existing {
        RestoreSucceedsIff(Dumped(Changed(q, q.table - {order[i]}), written, o.visit), order, i + 1, existing, o);
      } else if order[i] !in o.failing && written {
        RestoreSucceedsIff(Dumped(q, true, o.visit), order, i + 1, existing, o);
      }
    }
  }

  /** After a start with quotas the table is what the file read as, and the file holds it again. */
  lemma StartedReads(text: string, existing: set<string>, o: Outcomes)
    ensures var q, ds := Started(text, existing, o), ReadTable(text, existing, o);
      && (q.Enabled? ==> q == Enabled(ds, Print(o.visit(ds), ds), true) && Mirrors(q.text, q.table))
      && TextWithin(q.text, text, ds)
      && ds.Keys <= existing
  {
    hide Mirrors, RestoreFrom;
    var ds := ReadTable(text, existing, o);
    if o.readOK {
      CollectExist(Split(text, '\n'), existing);
    }
    RestoreOutcome(Enabled(ds, text, false), o.visit(ds), 0, existing, o);
    assert Existing(ds, existing) == ds;
    DumpedMirrors(Enabled(ds, text, false), o.visit);
  }

  /** A start that cannot read the file goes on with an empty table, and writes that over the file. */
  lemma UnreadFileIsWiped(text: string, existing: set<string>, o: Outcomes)
    requires o.available && !o.readOK && Outcome(o.restoreWrites, 0)
    ensures Started(text, existing, o) == Enabled(map[], Padding(), true)
  {
    var order := o.visit(map[]);
    NothingToVisit(order, map[]);
    RestoreEnds(Enabled(map[], text, false), [], existing, o);
    assert Records([], map[]) == "";
  }

  lemma NothingToVisit(order: seq<string>, ds: Directories)
    requires IsOrder(order, ds)
    ensures ds == map[] ==> order == []
  {
    if order != [] {
      assert order[0] in order;
    }
  }

  /** The same entries for the directories that still exist, but for one ID that has become 0. */
  ghost predicate SameButOneID(before: Directories, after: Directories, existing: set<string>) {
    && after.Keys == before.Keys * existing
    && (forall d :: d in after ==> after[d] == before[d] || after[d] == Info(0, before[d].cap))
    && (forall d, e :: d in after && e in after && after[d] != before[d] && after[e] != before[e] ==> d == e)
  }

  /** Reading a text that mirrors a table gives back what still exists of it, with the same caps and
      the same IDs but for that of the record printed first. */
  lemma ReloadKeepsTable(text: string, ds: Directories, existing: set<string>)
    requires Mirrors(text, ds) && AllPlain(ds)
    ensures SameButOneID(ds, Parse(text, existing), existing)
  {
    hide Plain, Parse, Print;
    var order :| IsOrder(order, ds) && text == Print(order, ds);
    PrintedRoundTrip(order, ds, existing);
    assert order != [] ==> order[0] in order;
  }

  // ---------- project IDs over runs ----------

  datatype Op =
    | Add(dir: string, cap: string, ok: bool)
    | Remove(dir: string)
    | Update(dir: string, cap: string)

  ghost predicate Applicable(ds: Directories, op: Op) { op.Add? ==> HasFree(ds) }

  ghost function Apply(ds: Directories, op: Op): Directories
    requires Applicable(ds, op)
  {
    match op
    case Add(dir, cap, ok) => Added(ds, dir, cap, ok)
    case Remove(dir) => ds - {dir}
    case Update(dir, cap) => Resized(ds, dir, cap)
  }

  ghost predicate AllApplicable(ds: Directories, ops: seq<Op>)
    decreases |ops|
  {
    ops == [] || (Applicable(ds, ops[0]) && AllApplicable(Apply(ds, ops[0]), ops[1..]))
  }

  ghost function ApplyAll(ds: Directories, ops: seq<Op>): Directories
    requires AllApplicable(ds, ops)
    decreases |ops|
  {
    if ops == [] then ds else ApplyAll(Apply(ds, ops[0]), ops[1..])
  }

  ghost predicate SoundIDs(ds: Directories) {
    DistinctIDs(ds) && forall d :: d in ds ==> ds[d].id != RESERVED
  }

  lemma ApplyKeepsIDsSound(ds: Directories, op: Op)
    requires SoundIDs(ds) && Applicable(ds, op)
    ensures SoundIDs(Apply(ds, op))
  {
    if op.Add? && op.ok {
      NextIsFree(ds);
      var ds' := Apply(ds, op);
      forall d | d in ds' && d != op.dir ensures ds'[d].id != NextID(ds) {
        assert d in ds;
      }
    }
  }

  /** Over every run of additions, removals and updates, failed commands included, project IDs
      stay pairwise distinct and the reserved ID is never handed out. */
  lemma {:induction false} RunKeepsIDsSound(ds: Directories, ops: seq<Op>)
    requires SoundIDs(ds) && AllApplicable(ds, ops)
    ensures SoundIDs(ApplyAll(ds, ops))
    decreases |ops|
  {
    if ops != [] {
      ApplyKeepsIDsSound(ds, ops[0]);
      RunKeepsIDsSound(Apply(ds, ops[0]), ops[1..]);
    }
  }

  /** One reload in between does no harm when every ID in the file is non-zero. */
  lemma RunAcrossReload(ds: Directories, ops: seq<Op>, order: seq<string>, later: seq<Op>)
    requires SoundIDs(ds) && AllApplicable(ds, ops)
    requires IsOrder(order, ApplyAll(ds, ops))
    requires forall d :: d in ApplyAll(ds, ops) ==> ApplyAll(ds, ops)[d].id != 0
    requires AllApplicable(Reloaded(order, ApplyAll(ds, ops)), later)
    ensures SoundIDs(ApplyAll(Reloaded(order, ApplyAll(ds, ops)), later))
  {
    var mid := ApplyAll(ds, ops);
    RunKeepsIDsSound(ds, ops);
    ReloadDistinctIff(order, mid, mid.Keys);
    assert order != [] ==> order[0] in order;
    assert Existing(Reloaded(order, mid), mid.Keys) == Reloaded(order, mid);
    RunKeepsIDsSound(Reloaded(order, mid), later);
  }

  // ---------- each operation on table and file ----------

  /** Without quotas nothing happens. A failed command takes the directory out again and leaves the file
      alone; after a good one the file is a printout of the table as soon as one of the two dumps succeeds. */
  lemma AddingIs(q: Quotas, dir: string, cap: string, o: Outcomes)
    ensures q.Disabled? ==> Adding(q, dir, cap, o) == q
    ensures q.Enabled? ==>
      var q' := Adding(q, dir, cap, o);
      && q'.Enabled?
      && if !o.projectOK
         then q'.table == q.table - {dir} && q'.text == q.text && (q'.clean <==> q.clean && dir !in q.table)
         else && q'.table == q.table[dir := Info(NextID(q.table), cap)] && q'.clean == o.addWritten
              && if o.addWritten || (o.limitOK && o.limitWritten) then Mirrors(q'.text, q'.table)
                 else q'.text == q.text
  {
    hide Mirrors, IsOrder, LeastFree;
    if q.Enabled? {
      var q1 := Changed(q, Added(q.table, dir, cap, o.projectOK));
      DumpedMirrors(q1, o.visit);
      assert q.table - {dir} == q.table <==> dir !in q.table;
    }
  }

  lemma RemovingIs(q: Quotas, dir: string, o: Outcomes)
    ensures q.Disabled? ==> Removing(q, dir, o) == q
    ensures q.Enabled? ==>
      var q' := Removing(q, dir, o);
      && q'.Enabled? && q'.table == q.table - {dir} && q'.clean == o.removeWritten
      && if o.removeWritten then Mirrors(q'.text, q'.table) else q'.text == q.text
  {
    hide Mirrors, IsOrder;
    if q.Enabled? {
      DumpedMirrors(Changed(q, q.table - {dir}), o.visit);
    }
  }

  /** The cap changes whatever becomes of the command; the call succeeds when command and dump do. */
  lemma ResizingIs(q: Quotas, dir: string, cap: string, o: Outcomes)
    ensures q.Disabled? ==> Resizing(q, dir, cap, o) == (q, true)
    ensures q.Enabled? && dir !in q.table ==> Resizing(q, dir, cap, o) == (q, false)
    ensures q.Enabled? && dir in q.table ==>
      var (q', ok) := Resizing(q, dir, cap, o);
      && (ok <==> o.limitOK && o.limitWritten)
      && q'.Enabled? && q'.table == q.table[dir := Info(q.table[dir].id, cap)]
      && (if ok then Mirrors(q'.text, q'.table) else q'.text == q.text)
      && (q'.clean <==> ok || (!o.limitOK && q.clean && q.table[dir].cap == cap))
  {
    hide Mirrors, IsOrder;
    if q.Enabled? && dir in q.table {
      var q1 := Changed(q, Resized(q.table, dir, cap));
      DumpedMirrors(q1, o.visit);
      assert q1.table == q.table <==> q.table[dir].cap == cap;
    }
  }

  /** There is a quota table after a start exactly when quotas are available, the last dump succeeds, and
      so do the command and the dump of every directory the file has. */
  lemma StartedIff(text: string, existing: set<string>, o: Outcomes)
    ensures var order := o.visit(ReadTable(text, existing, o));
      Started(text, existing, o).Enabled? <==>
        && o.available && Outcome(o.restoreWrites, |order|)
        && forall j :: 0 <= j < |order| ==> order[j] !in o.failing && Outcome(o.restoreWrites, j)
    ensures !o.available ==> Started(text, existing, o) == Disabled(text)
  {
    hide IsOrder, RestoreFrom;
    var ds := ReadTable(text, existing, o);
    var order := o.visit(ds);
    if o.readOK {
      CollectExist(Split(text, '\n'), existing);
    }
    InOrder(order, ds);
    RestoreSucceedsIff(Enabled(ds, text, false), order, 0, existing, o);
  }

  /** Directories of order[i..n] that are gone. */
  ghost function GoneUpTo(order: seq<string>, i: nat, n: nat, existing: set<string>): set<string>
    requires n <= |order|
  {
    set j | i <= j < n && order[j] !in existing :: order[j]
  }

  function Printout(ds: Directories, visit: Visit): string { Print(visit(ds), ds) }

  lemma DumpedIs(q: Quotas, written: bool, visit: Visit)
    requires q.Enabled?
    ensures var r := Dumped(q, written, visit);
      r.Enabled? && r.table == q.table && r.text == if written then Printout(q.table, visit) else q.text
  {
    hide Print, IsOrder;
  }

  /** How far a restoration gets, and what the file has then: it ends at the first existing directory whose
      command or dump fails, and the file is from the last dump that succeeded. */
  lemma {:induction false} RestoreStops(q: Quotas, order: seq<string>, i: nat, existing: set<string>, o: Outcomes)
    returns (k: nat, last: nat)
    requires q.Enabled? && i <= |order|
    ensures i <= k <= |order| && i <= last <= k + 1
    ensures forall j :: i <= j < k && order[j] in existing ==> order[j] !in o.failing && Outcome(o.restoreWrites, j)
    ensures k < |order| ==> order[k] in existing && (order[k] in o.failing || !Outcome(o.restoreWrites, k))
    ensures forall j :: last <= j < k ==> !Outcome(o.restoreWrites, j)
    ensures last > i ==> Outcome(o.restoreWrites, last - 1)
    ensures last > k <==> k == |order| && Outcome(o.restoreWrites, k)
    ensures var n := if last > |order| then |order| else last;
      var (r, ok) := RestoreFrom(q, order, i, existing, o);
      && (ok <==> last > k)
      && r.text == if last == i then q.text else Printout(q.table - GoneUpTo(order, i, n, existing), o.visit)
    decreases |order| - i
  {
    hide Printout, Dumped, IsOrder;
    k, last := i, i;
    var written := Outcome(o.restoreWrites, i);
    assert q.table - GoneUpTo(order, i, i, existing) == q.table;
    DumpedIs(q, written, o.visit);
    if i == |order| {
      last := if written then i + 1 else i;
    } else if order[i] !in existing || (order[i] !in o.failing && written) {
      var gone := GoneUpTo(order, i, i + 1, existing);
      var q1 := if order[i] in existing then Dumped(q, true, o.visit)
                else Dumped(Changed(q, q.table - {order[i]}), written, o.visit);
      assert gone == if order[i] in existing then {} else {order[i]};
      DumpedIs(Changed(q, q.table - {order[i]}), written, o.visit);
      assert q1.table == q.table - gone;
      k, last := RestoreStops(q1, order, i + 1, existing, o);
      var n := if last > |order| then |order| else last;
      assert GoneUpTo(order, i, n, existing) == gone + GoneUpTo(order, i + 1, n, existing);
      assert q1.table - GoneUpTo(order, i + 1, n, existing) == q.table - GoneUpTo(order, i, n, existing);
      if last == i + 1 && !written {
        last := i;
      }
    }
  }
}
