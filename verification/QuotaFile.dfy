// The projects file over runs of the driver: it holds the quota table while its writes succeed,
// and project IDs stay distinct through every restart but the one that reads an ID 0 twice.
module QuotaFile {
  import opened Base
  import opened ProjectIDs
  import opened ProjectsFile
  import opened Quota
  import opened Sizes
  import opened Driver
  import opened Effects

  // ---------- the file mirrors the table ----------

  ghost predicate FileMirrors(q: Quotas) { q.Enabled? && q.clean ==> Mirrors(q.text, q.table) }

  lemma DumpedFile(q: Quotas, written: bool, visit: Visit)
    requires q.Enabled?
    ensures FileMirrors(Dumped(q, written, visit))
  {
    hide Mirrors;
    DumpedMirrors(q, visit);
  }

  lemma AddingFile(q: Quotas, dir: string, cap: string, o: Outcomes)
    requires FileMirrors(q)
    ensures FileMirrors(Adding(q, dir, cap, o))
  {
    hide Mirrors, Dumped, Added;
    if q.Enabled? {
      var q1 := Changed(q, Added(q.table, dir, cap, o.projectOK));
      StaysEnabled(q1, o.limitWritten, o.visit);
      DumpedFile(if o.limitOK then Dumped(q1, o.limitWritten, o.visit) else q1, o.addWritten, o.visit);
    }
  }

  lemma StaysEnabled(q: Quotas, written: bool, visit: Visit)
    requires q.Enabled?
    ensures Dumped(q, written, visit).Enabled? && Dumped(q, written, visit).table == q.table
  {
    hide IsOrder;
  }

  lemma RemovingFile(q: Quotas, dir: string, o: Outcomes)
    requires FileMirrors(q)
    ensures FileMirrors(Removing(q, dir, o))
  {
    hide Mirrors, Dumped;
    if q.Enabled? {
      DumpedFile(Changed(q, q.table - {dir}), o.removeWritten, o.visit);
    }
  }

  lemma ResizingFile(q: Quotas, dir: string, cap: string, o: Outcomes)
    requires FileMirrors(q)
    ensures FileMirrors(Resizing(q, dir, cap, o).0)
  {
    hide Mirrors, Dumped;
    if q.Enabled? {
      DumpedFile(Changed(q, Resized(q.table, dir, cap)), o.limitWritten, o.visit);
    }
  }

  lemma ChangeFile(q: Quotas, q': Quotas, dir: string, cap: string, o: Outcomes)
    requires FileMirrors(q) && QuotaChange(q, q', dir, cap, o)
    ensures FileMirrors(q')
  {
    hide FileMirrors, Adding, Removing, Resizing;
    AddingFile(q, dir, cap, o);
    RemovingFile(q, dir, o);
    RemovingFile(Adding(q, dir, cap, o), dir, o);
    ResizingFile(q, dir, cap, o);
  }

  /** Every step, restarts included, keeps the file holding the table while nothing has failed to be written. */
  lemma StepFileMirrors(cfg: Config, w: World, e: Event)
    requires FileMirrors(w.quotas)
    ensures FileMirrors(Step(cfg, w, e).quotas)
  {
    if e.call.RestartCall? {
      hide Started, Mirrors;
      StartedReads(w.quotas.text, w.files - e.env.lost, e.env.quota);
    } else {
      hide FileMirrors, Step, QuotaChange;
      QuotaStep(cfg, w, e);
      var dir, cap := PathOf(cfg, QuotaID(e)), SizeText(QuotaSize(e.call) as real);
      ChangeFile(w.quotas, Step(cfg, w, e).quotas, dir, cap, e.env.quota);
    }
  }

  lemma {:induction false} RunFileMirrors(cfg: Config, w: World, es: seq<Event>)
    requires FileMirrors(w.quotas)
    ensures FileMirrors(Run(cfg, w, es).quotas)
    decreases |es|
  {
    hide FileMirrors;
    if es != [] {
      StepFileMirrors(cfg, w, es[0]);
      RunFileMirrors(cfg, Step(cfg, w, es[0]), es[1..]);
    }
  }

  lemma InitialFile(w: World)
    requires Initial(w)
    ensures FileMirrors(w.quotas)
  {
    assert IsOrder([], map[]) && Print([], map[]) == Padding();
  }

  /** At every point of every run the file is a printout of the table, unless a change has not been
      written or the last write failed. */
  lemma ReachableFile(cfg: Config, w: World, es: seq<Event>)
    requires Initial(w)
    ensures var q := Run(cfg, w, es).quotas; q.Enabled? && q.clean ==> Mirrors(q.text, q.table)
  {
    hide Initial;
    InitialFile(w);
    RunFileMirrors(cfg, w, es);
  }

  // ---------- entries that can be read back ----------

  predicate PlainText(s: string) { ':' !in s && '\n' !in s }

  /** State directory and volume IDs have no colon or newline. */
  predicate Tame(cfg: Config, e: Event) { PlainText(cfg.stateDir) && PlainText(QuotaID(e)) }

  /** The caps the driver sets never get in the way of reading the projects file back. */
  lemma CapsArePlain(dir: string, size: real)
    requires PlainText(dir)
    ensures Plain(dir, SizeText(size))
  {
    var cap := SizeText(size);
    var number := PrintInt(AmountOf(size));
    assert forall i :: 0 <= i < |number| ==> IsDigit(number[i]) || number[i] == '-';
    assert cap == number + [UNITS[UnitOf(size)]];
    assert UNITS[UnitOf(size)] in "BKMGTPE";
    forall i | 0 <= i < |cap| ensures cap[i] != ':' && cap[i] != '\n' {
      assert cap[i] == if i < |number| then number[i] else UNITS[UnitOf(size)];
    }
  }

  lemma TameEntry(cfg: Config, e: Event)
    requires Tame(cfg, e)
    ensures Plain(PathOf(cfg, QuotaID(e)), SizeText(QuotaSize(e.call) as real))
  {
    hide QuotaID, QuotaSize, SizeText, Plain;
    CapsArePlain(PathOf(cfg, QuotaID(e)), QuotaSize(e.call) as real);
  }

  lemma ChangePlain(q: Quotas, q': Quotas, dir: string, cap: string, o: Outcomes)
    requires AllPlain(TableOf(q)) && Plain(dir, cap) && QuotaChange(q, q', dir, cap, o)
    ensures AllPlain(TableOf(q'))
  {
    hide IsOrder, Print, Plain, LeastFree;
  }

  lemma CallPlain(cfg: Config, w: World, e: Event)
    requires !e.call.RestartCall? && Tame(cfg, e) && AllPlain(TableOf(w.quotas))
    ensures AllPlain(TableOf(Step(cfg, w, e).quotas))
  {
    hide Tame, Step, QuotaChange, Plain, AllPlain, SizeText;
    QuotaStep(cfg, w, e);
    TameEntry(cfg, e);
    var dir, cap := PathOf(cfg, QuotaID(e)), SizeText(QuotaSize(e.call) as real);
    ChangePlain(w.quotas, Step(cfg, w, e).quotas, dir, cap, e.env.quota);
  }

  /** A restart reads a mirrored table back: the directories that still exist, their caps, and their IDs
      but for one, which reads as 0. */
  lemma RestartReadsTable(cfg: Config, w: World, e: Event)
    requires e.call.RestartCall? && Step(cfg, w, e).quotas.Enabled? && e.env.quota.readOK
    requires FileMirrors(w.quotas) && w.quotas.Enabled? && w.quotas.clean && AllPlain(w.quotas.table)
    ensures SameButOneID(w.quotas.table, TableOf(Step(cfg, w, e).quotas), w.files - e.env.lost)
  {
    hide Started, SameButOneID, Mirrors, AllPlain;
    var existing := w.files - e.env.lost;
    StartedReads(w.quotas.text, existing, e.env.quota);
    ReloadKeepsTable(w.quotas.text, w.quotas.table, existing);
  }

  // ---------- sound tables ----------

  /** Printable entries under distinct IDs, none of them reserved and, where asked, none of them 0. */
  ghost predicate SoundTable(ds: Directories, positive: bool) {
    AllPlain(ds) && SoundIDs(ds) && (positive ==> forall d :: d in ds ==> ds[d].id != 0)
  }

  /** The file is still empty or a printout of a sound table, if not of the present one. */
  ghost predicate TextSound(text: string, positive: bool) {
    text == "" || exists ds :: SoundTable(ds, positive) && Mirrors(text, ds)
  }

  ghost predicate SoundQuotas(q: Quotas, positive: bool) {
    SoundTable(TableOf(q), positive) && TextSound(q.text, positive)
  }

  lemma DumpedSound(q: Quotas, written: bool, visit: Visit, positive: bool)
    requires q.Enabled? && SoundQuotas(q, positive)
    ensures SoundQuotas(Dumped(q, written, visit), positive)
  {
    hide Mirrors, SoundTable;
    DumpedMirrors(q, visit);
    StaysEnabled(q, written, visit);
  }

  lemma ChangedSound(q: Quotas, ds: Directories, positive: bool)
    requires q.Enabled? && SoundQuotas(q, positive) && SoundTable(ds, positive)
    ensures SoundQuotas(Changed(q, ds), positive)
  {
  }

  lemma AddedSound(ds: Directories, dir: string, cap: string, ok: bool, positive: bool)
    requires SoundTable(ds, positive) && Plain(dir, cap) && HasFree(ds) && (positive ==> |ds| < 65534)
    ensures SoundTable(Added(ds, dir, cap, ok), positive)
  {
    hide Plain, LeastFree;
    ApplyKeepsIDsSound(ds, Add(dir, cap, ok));
    if positive {
      RoomBelowLimit(ds);
    }
  }

  lemma RemovedSound(ds: Directories, dir: string, positive: bool)
    requires SoundTable(ds, positive)
    ensures SoundTable(ds - {dir}, positive)
  {
    hide Plain;
  }

  lemma ResizedSound(ds: Directories, dir: string, cap: string, positive: bool)
    requires SoundTable(ds, positive) && Plain(dir, cap)
    ensures SoundTable(Resized(ds, dir, cap), positive)
  {
    hide Plain;
  }

  lemma AddingSound(q: Quotas, dir: string, cap: string, o: Outcomes, positive: bool)
    requires SoundQuotas(q, positive) && Plain(dir, cap) && HasFree(TableOf(q))
    requires positive ==> |TableOf(q)| < 65534
    ensures SoundQuotas(Adding(q, dir, cap, o), positive)
  {
    hide TextSound, SoundTable, Dumped, Added, Plain, HasFree;
    if q.Enabled? {
      AddedSound(q.table, dir, cap, o.projectOK, positive);
      var q1 := Changed(q, Added(q.table, dir, cap, o.projectOK));
      ChangedSound(q, q1.table, positive);
      DumpedSound(q1, o.limitWritten, o.visit, positive);
      StaysEnabled(q1, o.limitWritten, o.visit);
      DumpedSound(if o.limitOK then Dumped(q1, o.limitWritten, o.visit) else q1, o.addWritten, o.visit, positive);
    }
  }

  lemma RemovingSound(q: Quotas, dir: string, o: Outcomes, positive: bool)
    requires SoundQuotas(q, positive)
    ensures SoundQuotas(Removing(q, dir, o), positive)
  {
    hide TextSound, SoundTable, Dumped;
    if q.Enabled? {
      RemovedSound(q.table, dir, positive);
      ChangedSound(q, q.table - {dir}, positive);
      DumpedSound(Changed(q, q.table - {dir}), o.removeWritten, o.visit, positive);
    }
  }

  lemma ResizingSound(q: Quotas, dir: string, cap: string, o: Outcomes, positive: bool)
    requires SoundQuotas(q, positive) && Plain(dir, cap)
    ensures SoundQuotas(Resizing(q, dir, cap, o).0, positive)
  {
    hide TextSound, SoundTable, Dumped, Plain;
    if q.Enabled? {
      ResizedSound(q.table, dir, cap, positive);
      ChangedSound(q, Resized(q.table, dir, cap), positive);
      DumpedSound(Changed(q, Resized(q.table, dir, cap)), o.limitWritten, o.visit, positive);
    }
  }

  lemma ChangeSound(q: Quotas, q': Quotas, dir: string, cap: string, o: Outcomes, positive: bool)
    requires SoundQuotas(q, positive) && HasFree(TableOf(q)) && QuotaChange(q, q', dir, cap, o)
    requires Plain(dir, cap) && (positive ==> |TableOf(q)| < 65534)
    ensures SoundQuotas(q', positive)
  {
    hide SoundQuotas, Adding, Removing, Resizing, HasFree, Plain;
    AddingSound(q, dir, cap, o, positive);
    RemovingSound(q, dir, o, positive);
    RemovingSound(Adding(q, dir, cap, o), dir, o, positive);
    ResizingSound(q, dir, cap, o, positive);
  }

  lemma StepSoundQuotas(cfg: Config, w: World, e: Event, positive: bool)
    requires SoundQuotas(w.quotas, positive) && Possible(cfg, w, e) && !e.call.RestartCall? && Tame(cfg, e)
    requires positive ==> |TableOf(w.quotas)| < 65534
    ensures SoundQuotas(Step(cfg, w, e).quotas, positive)
  {
    hide SoundQuotas, Step, NewID, HasFree, QuotaChange, Plain;
    QuotaStep(cfg, w, e);
    TameEntry(cfg, e);
    ChangeSound(w.quotas, Step(cfg, w, e).quotas,
      PathOf(cfg, QuotaID(e)), SizeText(QuotaSize(e.call) as real), e.env.quota, positive);
  }

  // ---------- restarts ----------

  /** The file is read, and of the directories it lists the first and another one with ID 0 still exist. */
  ghost predicate ReadsZeroTwice(text: string, existing: set<string>, o: Outcomes) {
    o.readOK && exists order, ds ::
      IsOrder(order, ds) && AllPlain(ds) && text == Print(order, ds) && Collides(order, ds, existing)
  }

  lemma ReadBack(order: seq<string>, ds: Directories, existing: set<string>)
    requires IsOrder(order, ds) && AllPlain(ds)
    ensures Parse(Print(order, ds), existing) == Existing(Reloaded(order, ds), existing)
    ensures AllPlain(Parse(Print(order, ds), existing))
    ensures Collides(order, ds, existing) ==> !DistinctIDs(Parse(Print(order, ds), existing))
  {
    hide Plain;
    PrintedRoundTrip(order, ds, existing);
    assert order != [] ==> order[0] in order;
    if Collides(order, ds, existing) {
      var after := Parse(Print(order, ds), existing);
      var d :| d in ds && d in existing && d != order[0] && ds[d].id == 0;
      assert after[order[0]].id == after[d].id;
    }
  }

  lemma EmptyText(existing: set<string>)
    ensures Parse("", existing) == map[]
  {
    assert Split("", '\n') == [""];
    BlankLineLast([], existing);
    assert [] + [""] == [""];
  }

  lemma NotEmpty(order: seq<string>, ds: Directories)
    requires forall d :: d in order ==> d in ds
    ensures Print(order, ds) != ""
  {
    assert |Print(order, ds)| >= 1000;
  }

  /** A restart reads distinct IDs from a sound file exactly unless it reads 0 twice. */
  lemma ReadSoundIff(text: string, existing: set<string>, o: Outcomes)
    requires TextSound(text, false)
    ensures SoundIDs(ReadTable(text, existing, o)) <==> !ReadsZeroTwice(text, existing, o)
    ensures AllPlain(ReadTable(text, existing, o))
  {
    hide Print, Parse, Plain, Collides;
    if !o.readOK {
    } else if text == "" {
      EmptyText(existing);
      forall order, ds | IsOrder(order, ds) ensures Print(order, ds) != "" {
        NotEmpty(order, ds);
      }
    } else {
      var ds :| SoundTable(ds, false) && Mirrors(text, ds);
      var order :| IsOrder(order, ds) && text == Print(order, ds);
      ReadBack(order, ds, existing);
      ReloadDistinctIff(order, ds, existing);
      forall order', ds' |
        IsOrder(order', ds') && AllPlain(ds') && text == Print(order', ds') && Collides(order', ds', existing)
        ensures !DistinctIDs(Parse(text, existing))
      {
        ReadBack(order', ds', existing);
      }
    }
  }

  /** From distinct IDs, a restart that has a quota table has distinct IDs exactly unless it read 0 twice. */
  lemma RestartIDsIff(cfg: Config, w: World, e: Event)
    requires SoundQuotas(w.quotas, false) && e.call.RestartCall?
    requires Step(cfg, w, e).quotas.Enabled?
    ensures SoundIDs(TableOf(Step(cfg, w, e).quotas)) <==>
      !ReadsZeroTwice(w.quotas.text, w.files - e.env.lost, e.env.quota)
  {
    hide Started, ReadTable, ReadsZeroTwice, SoundIDs, Mirrors;
    StartedReads(w.quotas.text, w.files - e.env.lost, e.env.quota);
    ReadSoundIff(w.quotas.text, w.files - e.env.lost, e.env.quota);
  }

  lemma PartSound(t: Directories, ds: Directories, positive: bool)
    requires SubTable(t, ds) && SoundTable(ds, positive)
    ensures SoundTable(t, positive)
  {
    hide Plain;
  }

  /** What is read soundly is kept soundly, in the table and in the file, even if the start fails half way. */
  lemma RestartSoundQuotas(cfg: Config, w: World, e: Event)
    requires SoundQuotas(w.quotas, false) && e.call.RestartCall?
    requires !ReadsZeroTwice(w.quotas.text, w.files - e.env.lost, e.env.quota)
    ensures SoundQuotas(Step(cfg, w, e).quotas, false)
  {
    hide Started, ReadTable, ReadsZeroTwice, Mirrors;
    var text, existing, o := w.quotas.text, w.files - e.env.lost, e.env.quota;
    var q, ds := Step(cfg, w, e).quotas, ReadTable(text, existing, o);
    StartedReads(text, existing, o);
    ReadSoundIff(text, existing, o);
    assert SoundTable(ds, false);
    hide SoundTable;
    NoTableSound();
    forall t | SubTable(t, ds) ensures SoundTable(t, false) {
      PartSound(t, ds, false);
    }
  }

  lemma NoTableSound()
    ensures SoundTable(map[], false)
  {
  }

  // ---------- runs ----------

  /** The call is tame, and a restart does not read 0 twice. */
  ghost predicate KeepsIDs(cfg: Config, w: World, e: Event) {
    && Tame(cfg, e)
    && (e.call.RestartCall? ==> !ReadsZeroTwice(w.quotas.text, w.files - e.env.lost, e.env.quota))
  }

  ghost predicate IDsKeptByRun(cfg: Config, w: World, es: seq<Event>)
    decreases |es|
  {
    es == [] || (KeepsIDs(cfg, w, es[0]) && IDsKeptByRun(cfg, Step(cfg, w, es[0]), es[1..]))
  }

  /** Over driver runs, whatever fails: no two directories share a project ID and none gets the
      reserved one, as long as no restart reads 0 twice. */
  lemma {:induction false} RunIDsSound(cfg: Config, w: World, es: seq<Event>)
    requires SoundQuotas(w.quotas, false) && PossibleRun(cfg, w, es) && IDsKeptByRun(cfg, w, es)
    ensures SoundQuotas(Run(cfg, w, es).quotas, false) && SoundIDs(TableOf(Run(cfg, w, es).quotas))
    decreases |es|
  {
    hide TextSound, ReadsZeroTwice, Tame;
    if es != [] {
      if es[0].call.RestartCall? {
        RestartSoundQuotas(cfg, w, es[0]);
      } else {
        StepSoundQuotas(cfg, w, es[0], false);
      }
      RunIDsSound(cfg, Step(cfg, w, es[0]), es[1..]);
    }
  }

  predicate AtMostOneRestart(es: seq<Event>) {
    forall i, j :: 0 <= i < j < |es| ==> !es[i].call.RestartCall? || !es[j].call.RestartCall?
  }

  ghost predicate RoomyRun(cfg: Config, w: World, es: seq<Event>)
    decreases |es|
  {
    es == [] || (|TableOf(w.quotas)| < 65534 && RoomyRun(cfg, Step(cfg, w, es[0]), es[1..]))
  }

  lemma PositiveIsSound(q: Quotas)
    requires SoundQuotas(q, true)
    ensures SoundQuotas(q, false)
  {
    hide Mirrors, Plain;
    if q.text != "" {
      var ds :| SoundTable(ds, true) && Mirrors(q.text, ds);
      assert SoundTable(ds, false);
    }
  }

  /** Without an ID 0 in the file there is none to be read twice. */
  lemma PositiveReadsOnce(text: string, existing: set<string>, o: Outcomes)
    requires TextSound(text, true)
    ensures !ReadsZeroTwice(text, existing, o)
  {
    hide ReadsZeroTwice, Plain, Print, Parse;
    if text == "" {
      EmptyText(existing);
    } else {
      var ds :| SoundTable(ds, true) && Mirrors(text, ds);
      var order :| IsOrder(order, ds) && text == Print(order, ds);
      assert SoundTable(ds, false);
      ReadBack(order, ds, existing);
      ReloadDistinctIff(order, ds, existing);
      assert SoundIDs(Parse(text, existing));
    }
    ReadSoundIff(text, existing, o);
  }

  lemma {:induction false} NoRestartKeepsIDs(cfg: Config, w: World, es: seq<Event>)
    requires forall i :: 0 <= i < |es| ==> Tame(cfg, es[i]) && !es[i].call.RestartCall?
    ensures IDsKeptByRun(cfg, w, es)
    decreases |es|
  {
    hide Tame, Step;
    if es != [] {
      NoRestartKeepsIDs(cfg, Step(cfg, w, es[0]), es[1..]);
    }
  }

  lemma {:induction false} RunWithOneRestart(cfg: Config, w: World, es: seq<Event>)
    requires SoundQuotas(w.quotas, true) && PossibleRun(cfg, w, es) && RoomyRun(cfg, w, es) && AtMostOneRestart(es)
    requires forall i :: 0 <= i < |es| ==> Tame(cfg, es[i])
    ensures SoundIDs(TableOf(Run(cfg, w, es).quotas))
    decreases |es|
  {
    hide TextSound, ReadsZeroTwice, Tame;
    if es != [] {
      var w1 := Step(cfg, w, es[0]);
      if es[0].call.RestartCall? {
        PositiveReadsOnce(w.quotas.text, w.files - es[0].env.lost, es[0].env.quota);
        PositiveIsSound(w.quotas);
        RestartSoundQuotas(cfg, w, es[0]);
        NoRestartKeepsIDs(cfg, w1, es[1..]);
        RunIDsSound(cfg, w1, es[1..]);
      } else {
        StepSoundQuotas(cfg, w, es[0], true);
        RunWithOneRestart(cfg, w1, es[1..]);
      }
    }
  }

  lemma InitialQuotas(w: World)
    requires Initial(w)
    ensures SoundQuotas(w.quotas, true)
  {
    assert IsOrder([], map[]) && Print([], map[]) == Padding();
    assert Mirrors(Padding(), map[]) && SoundTable(map[], true);
  }

  /** From a fresh start, with fewer than 65534 quotas at a time, one restart does no harm: project IDs
      are distinct throughout. A second restart can break this (see module Limits). */
  lemma ReachableIDs(cfg: Config, w: World, es: seq<Event>)
    requires Initial(w) && PossibleRun(cfg, w, es) && RoomyRun(cfg, w, es) && AtMostOneRestart(es)
    requires forall i :: 0 <= i < |es| ==> Tame(cfg, es[i])
    ensures SoundIDs(TableOf(Run(cfg, w, es).quotas))
  {
    hide Initial;
    InitialQuotas(w);
    RunWithOneRestart(cfg, w, es);
  }
}
