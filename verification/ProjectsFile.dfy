// The projects file: how the quota table is printed, with 1000 NUL bytes in front of the
// first record, and how the text is read back.
module ProjectsFile {
  import opened Base
  import opened ProjectIDs

  type Directories = map<string, Info>

  // ---------- strings.Split and strings.TrimSpace ----------

  function Split(s: string, sep: char): (r: seq<string>)
    ensures r != []
  {
    if s == [] then [[]]
    else
      var r := Split(s[1..], sep);
      if s[0] == sep then [[]] + r else [[s[0]] + r[0]] + r[1..]
  }

  lemma {:induction false} SplitWord(w: string, sep: char)
    requires sep !in w
    ensures Split(w, sep) == [w]
  {
    if w != [] {
      SplitWord(w[1..], sep);
      assert w == [w[0]] + w[1..];
    }
  }

  lemma {:induction false} SplitFirst(w: string, sep: char, rest: string)
    requires sep !in w
    ensures Split(w + [sep] + rest, sep) == [w] + Split(rest, sep)
  {
    if w == [] {
      assert w + [sep] + rest == [sep] + rest;
    } else {
      SplitFirst(w[1..], sep, rest);
      assert w + [sep] + rest == [w[0]] + (w[1..] + [sep] + rest);
      assert w == [w[0]] + w[1..];
    }
  }

  predicate IsSpace(c: char) {
    var n := c as int;
    || 9 <= n <= 13 || n == 32 || n == 0x85 || n == 0xA0 || n == 0x1680
    || 0x2000 <= n <= 0x200A || n == 0x2028 || n == 0x2029 || n == 0x202F || n == 0x205F || n == 0x3000
  }

  function TrimLeft(s: string): string {
    if s != [] && IsSpace(s[0]) then TrimLeft(s[1..]) else s
  }

  function TrimRight(s: string): string {
    if s != [] && IsSpace(s[|s| - 1]) then TrimRight(s[..|s| - 1]) else s
  }

  function TrimSpace(s: string): string { TrimRight(TrimLeft(s)) }

  // ---------- printing ----------

  function Line(dir: string, info: Info): string {
    PrintNat(info.id) + ":" + dir + ":" + info.cap
  }

  /** The records in the order in which the map happens to be visited. */
  function Records(order: seq<string>, ds: Directories): string
    requires forall d :: d in order ==> d in ds
  {
    if order == [] then ""
    else Line(order[0], ds[order[0]]) + "\n" + Records(order[1..], ds)
  }

  lemma {:induction false} RecordsAppend(order: seq<string>, d: string, ds: Directories)
    requires d in ds && forall e :: e in order ==> e in ds
    ensures Records(order + [d], ds) == Records(order, ds) + Line(d, ds[d]) + "\n"
  {
    if order == [] {
      assert order + [d] == [d];
      assert Records([d][1..], ds) == "";
    } else {
      assert (order + [d])[1..] == order[1..] + [d];
      RecordsAppend(order[1..], d, ds);
    }
  }

  /** The new buffer's first 1000 bytes, which stay in front of everything written. */
  function Padding(): (p: string)
    ensures |p| == 1000 && forall i :: 0 <= i < |p| ==> p[i] == '\0'
  {
    seq(1000, i => '\0')
  }

  function Print(order: seq<string>, ds: Directories): string
    requires forall d :: d in order ==> d in ds
  {
    Padding() + Records(order, ds)
  }

  /** Every key once, in some order. */
  ghost predicate IsOrder(order: seq<string>, ds: Directories) {
    && (forall d :: d in order <==> d in ds)
    && (forall i, j :: 0 <= i < j < |order| ==> order[i] != order[j])
  }

  /** An order in which a table can be visited. */
  ghost function AnyOrder(ds: Directories): (order: seq<string>)
    ensures IsOrder(order, ds)
    decreases |ds|
  {
    if ds == map[] then []
    else
      var d :| d in ds;
      FirstVisited(d, ds)
  }

  /** The same with a given directory first. */
  ghost function FirstVisited(d: string, ds: Directories): (order: seq<string>)
    requires d in ds
    ensures IsOrder(order, ds) && order[0] == d
    decreases |ds|, 0
  {
    assert (ds - {d}).Keys == ds.Keys - {d};
    var rest := AnyOrder(ds - {d});
    assert forall e :: e in [d] + rest <==> e == d || e in rest;
    [d] + rest
  }

  ghost predicate VisitsAll(visit: Directories -> seq<string>) {
    forall ds :: IsOrder(visit(ds), ds)
  }

  /** The order in which Go happens to range over a map: any order, so a choice for every table. */
  type Visit = v: Directories -> seq<string> | VisitsAll(v) ghost witness (ds: Directories) => AnyOrder(ds)

  /** Prints the table in the order in which the map happens to be visited. */
  method ToString(ds: Directories, order: seq<string>) returns (text: string)
    requires IsOrder(order, ds)
    ensures text == Print(order, ds)
  {
    var records := "";
    var i := 0;
    while i < |order|
      invariant i <= |order|
      invariant records == Records(order[..i], ds)
    {
      var d := order[i];
      assert d in order;
      RecordsAppend(order[..i], d, ds);
      assert order[..i] + [d] == order[..i + 1];
      records := records + Line(d, ds[d]) + "\n";
      i := i + 1;
    }
    assert order[..i] == order;
    text := Padding() + records;
  }

  // ---------- reading ----------

  /** One line of the file: nothing unless it has three fields. The ID's parse error is dropped. */
  function ParseLine(line: string): Option<(string, Info)> {
    var fields := Split(TrimSpace(line), ':');
    if |fields| != 3 then None
    else Some((fields[1], Info(ParseUint(fields[0], 65535).value, fields[2])))
  }

  function Entry(line: string, existing: set<string>): Directories {
    match ParseLine(line)
    case None => map[]
    case Some(e) => if e.0 in existing then map[e.0 := e.1] else map[]
  }

  function Collect(lines: seq<string>, existing: set<string>): Directories {
    if lines == [] then map[]
    else Collect(lines[..|lines| - 1], existing) + Entry(lines[|lines| - 1], existing)
  }

  function Parse(text: string, existing: set<string>): Directories {
    Collect(Split(text, '\n'), existing)
  }

  lemma CollectNext(lines: seq<string>, i: nat, existing: set<string>)
    requires i < |lines|
    ensures Collect(lines[..i + 1], existing) == Collect(lines[..i], existing) + Entry(lines[i], existing)
  {
    assert lines[..i + 1][..i] == lines[..i];
  }

  lemma BlankEntry(line: string, existing: set<string>)
    requires TrimSpace(line) == ""
    ensures Entry(line, existing) == map[]
  {
    assert |Split("", ':')| == 1;
  }

  method ReadLine(ids: Directories, line: string, existing: set<string>) returns (r: Directories)
    ensures r == ids + Entry(line, existing)
  {
    var trimmed := TrimSpace(line);
    if |trimmed| == 0 {
      BlankEntry(line, existing);
      return ids;
    }
    var fields := Split(trimmed, ':');
    if |fields| != 3 || fields[1] !in existing {
      return ids;
    }
    var id := ParseUint(fields[0], 65535);
    r := ids[fields[1] := Info(id.value, fields[2])];
  }

  /** Fills the table line by line; lines naming a directory that no longer exists are skipped. */
  method GetExistingIDs(text: string, existing: set<string>) returns (ids: Directories)
    ensures ids == Parse(text, existing)
  {
    ids := map[];
    var lines := Split(text, '\n');
    var i := 0;
    while i < |lines|
      invariant i <= |lines|
      invariant ids == Collect(lines[..i], existing)
    {
      CollectNext(lines, i, existing);
      ids := ReadLine(ids, lines[i], existing);
      i := i + 1;
    }
    assert lines[..i] == lines;
  }

  // ---------- round trip ----------

  /** A record whose text can be told apart from separators and surrounding space. */
  predicate Plain(dir: string, cap: string) {
    && ':' !in dir && '\n' !in dir
    && ':' !in cap && '\n' !in cap && (cap == "" || !IsSpace(cap[|cap| - 1]))
  }

  ghost predicate AllPlain(ds: Directories) {
    forall d :: d in ds ==> Plain(d, ds[d].cap)
  }

  lemma Untrimmed(s: string)
    requires s != [] && !IsSpace(s[0]) && !IsSpace(s[|s| - 1])
    ensures TrimSpace(s) == s
  {
  }

  lemma FieldsOf(number: string, dir: string, cap: string)
    requires ':' !in number && ':' !in dir && ':' !in cap
    ensures Split(number + ":" + dir + ":" + cap, ':') == [number, dir, cap]
  {
    var tail := dir + [':'] + cap;
    assert number + ":" + dir + ":" + cap == number + [':'] + tail;
    SplitFirst(number, ':', tail);
    SplitFirst(dir, ':', cap);
    SplitWord(cap, ':');
  }

  lemma TextOf(number: string, dir: string, cap: string)
    requires number != [] && !IsSpace(number[0]) && ':' !in number && '\n' !in number && Plain(dir, cap)
    ensures ParseLine(number + ":" + dir + ":" + cap) == Some((dir, Info(ParseUint(number, 65535).value, cap)))
    ensures '\n' !in number + ":" + dir + ":" + cap
  {
    var line := number + ":" + dir + ":" + cap;
    assert line[0] == number[0];
    assert line[|line| - 1] == if cap == "" then ':' else cap[|cap| - 1];
    Untrimmed(line);
    FieldsOf(number, dir, cap);
  }

  lemma LineParses(dir: string, info: Info)
    requires Plain(dir, info.cap)
    ensures ParseLine(Line(dir, info)) == Some((dir, info)) && '\n' !in Line(dir, info)
  {
    var number := PrintNat(info.id);
    assert IsDigit(number[0]) && forall c :: c in number ==> IsDigit(c);
    TextOf(number, dir, info.cap);
    ParsePrinted(info.id, 65535);
  }

  ghost predicate AllNul(p: string) { p != "" && forall i :: 0 <= i < |p| ==> p[i] == '\0' }

  /** Behind NUL padding a record keeps its directory and cap, but its ID reads as 0. */
  lemma PaddedLineParses(p: string, dir: string, info: Info)
    requires AllNul(p) && Plain(dir, info.cap)
    ensures ParseLine(p + Line(dir, info)) == Some((dir, Info(0, info.cap)))
    ensures '\n' !in p + Line(dir, info)
  {
    var number := p + PrintNat(info.id);
    assert number[0] == '\0';
    assert forall i :: 0 <= i < |number| ==> number[i] == '\0' || IsDigit(number[i]);
    TextOf(number, dir, info.cap);
    assert p + Line(dir, info) == number + ":" + dir + ":" + info.cap;
  }

  function Lines(order: seq<string>, ds: Directories): seq<string>
    requires forall d :: d in order ==> d in ds
  {
    seq(|order|, i requires 0 <= i < |order| => Line(order[i], ds[order[i]]))
  }

  lemma {:induction false} SplitRecords(order: seq<string>, ds: Directories)
    requires AllPlain(ds) && forall d :: d in order ==> d in ds
    ensures Split(Records(order, ds), '\n') == Lines(order, ds) + [""]
  {
    if order != [] {
      var d := order[0];
      LineParses(d, ds[d]);
      SplitFirst(Line(d, ds[d]), '\n', Records(order[1..], ds));
      SplitRecords(order[1..], ds);
      assert Lines(order, ds) == [Line(d, ds[d])] + Lines(order[1..], ds);
    }
  }

  lemma SplitPadded(p: string, order: seq<string>, ds: Directories)
    requires AllNul(p) && AllPlain(ds) && order != [] && forall d :: d in order ==> d in ds
    ensures Split(p + Records(order, ds), '\n') == [p + Line(order[0], ds[order[0]])] + Lines(order[1..], ds) + [""]
  {
    hide Line, Split, AllNul, ParseLine, Plain;
    var d := order[0];
    var first, rest := p + Line(d, ds[d]), Records(order[1..], ds);
    PaddedLineParses(p, d, ds[d]);
    assert p + Records(order, ds) == first + ['\n'] + rest;
    SplitFirst(first, '\n', rest);
    SplitRecords(order[1..], ds);
  }

  ghost function Existing(ds: Directories, existing: set<string>): Directories {
    map d | d in ds && d in existing :: ds[d]
  }

  /** Lines that parse to the entries of `ds` in some order collect to the existing part of `ds`. */
  lemma {:induction false} CollectEntries(lines: seq<string>, order: seq<string>, ds: Directories,
                                          existing: set<string>)
    requires |lines| == |order| && IsOrder(order, ds)
    requires forall i :: 0 <= i < |lines| ==> ParseLine(lines[i]) == Some((order[i], ds[order[i]]))
    ensures Collect(lines, existing) == Existing(ds, existing)
  {
    hide ParseLine, Entry;
    if lines == [] {
      assert Existing(ds, existing) == map[];
    } else {
      var n := |lines| - 1;
      OrderWithoutLast(order, ds);
      CollectEntries(lines[..n], order[..n], ds - {order[n]}, existing);
      assert order[n] in order;
      ExistingPlusOne(ds, order[n], existing);
      OneEntry(lines[n], order[n], ds[order[n]], existing);
    }
  }

  lemma OneEntry(line: string, d: string, info: Info, existing: set<string>)
    requires ParseLine(line) == Some((d, info))
    ensures Entry(line, existing) == if d in existing then map[d := info] else map[]
  {
  }

  lemma ExistingPlusOne(ds: Directories, d: string, existing: set<string>)
    requires d in ds
    ensures Existing(ds, existing) == Existing(ds - {d}, existing) + if d in existing then map[d := ds[d]] else map[]
  {
  }

  lemma OrderWithoutLast(order: seq<string>, ds: Directories)
    requires IsOrder(order, ds) && order != []
    ensures IsOrder(order[..|order| - 1], ds - {order[|order| - 1]})
  {
    var n := |order| - 1;
    forall e ensures e in order[..n] <==> e in ds - {order[n]} {
      if e in ds - {order[n]} {
        assert e in order;
      }
    }
  }

  lemma BlankLineLast(lines: seq<string>, existing: set<string>)
    ensures Collect(lines + [""], existing) == Collect(lines, existing)
  {
    assert (lines + [""])[..|lines|] == lines;
    SplitWord("", ':');
    assert TrimSpace("") == "";
    assert Entry("", existing) == map[];
  }

  /** Without the padding, reading what was printed gives back the table, whatever the visiting order. */
  lemma RecordsRoundTrip(order: seq<string>, ds: Directories, existing: set<string>)
    requires IsOrder(order, ds) && AllPlain(ds)
    ensures Parse(Records(order, ds), existing) == Existing(ds, existing)
  {
    SplitRecords(order, ds);
    BlankLineLast(Lines(order, ds), existing);
    forall i | 0 <= i < |order| ensures ParseLine(Lines(order, ds)[i]) == Some((order[i], ds[order[i]])) {
      assert order[i] in order;
      LineParses(order[i], ds[order[i]]);
    }
    CollectEntries(Lines(order, ds), order, ds, existing);
  }

  /** What a reload makes of the printed table: the record printed first has lost its ID. */
  ghost function Reloaded(order: seq<string>, ds: Directories): Directories
    requires forall d :: d in order ==> d in ds
  {
    if order == [] then ds else ds[order[0] := Info(0, ds[order[0]].cap)]
  }

  lemma PaddedLines(p: string, order: seq<string>, ds: Directories)
    requires AllNul(p) && IsOrder(order, ds) && AllPlain(ds) && order != []
    ensures var lines := [p + Line(order[0], ds[order[0]])] + Lines(order[1..], ds);
      forall i :: 0 <= i < |order| ==> ParseLine(lines[i]) == Some((order[i], Reloaded(order, ds)[order[i]]))
  {
    hide Line, AllNul, ParseLine, Plain;
    var lines := [p + Line(order[0], ds[order[0]])] + Lines(order[1..], ds);
    PaddedLineParses(p, order[0], ds[order[0]]);
    forall i | 1 <= i < |order| ensures ParseLine(lines[i]) == Some((order[i], ds[order[i]])) {
      assert order[i] in order;
      LineParses(order[i], ds[order[i]]);
    }
  }

  lemma ReloadedOrder(order: seq<string>, ds: Directories)
    requires IsOrder(order, ds) && order != []
    ensures IsOrder(order, Reloaded(order, ds))
  {
    assert order[0] in order;
  }

  lemma PaddedRoundTrip(p: string, order: seq<string>, ds: Directories, existing: set<string>)
    requires AllNul(p) && IsOrder(order, ds) && AllPlain(ds) && order != []
    ensures Parse(p + Records(order, ds), existing) == Existing(Reloaded(order, ds), existing)
  {
    hide AllNul, AllPlain, Line, Split, ParseLine, Reloaded;
    var lines := [p + Line(order[0], ds[order[0]])] + Lines(order[1..], ds);
    SplitPadded(p, order, ds);
    BlankLineLast(lines, existing);
    PaddedLines(p, order, ds);
    ReloadedOrder(order, ds);
    CollectEntries(lines, order, Reloaded(order, ds), existing);
  }

  /** The full text gives back every directory and cap, and every ID but the first record's. */
  lemma PrintedRoundTrip(order: seq<string>, ds: Directories, existing: set<string>)
    requires IsOrder(order, ds) && AllPlain(ds)
    ensures Parse(Print(order, ds), existing) == Existing(Reloaded(order, ds), existing)
  {
    if order == [] {
      assert ds.Keys == {};
      assert Print(order, ds) == Padding();
      NoFields(Padding(), existing);
    } else {
      PaddedRoundTrip(Padding(), order, ds, existing);
    }
  }

  /** A line without separators is no record. */
  lemma NoFields(p: string, existing: set<string>)
    requires AllNul(p)
    ensures Parse(p, existing) == map[]
  {
    SplitWord(p, '\n');
    Untrimmed(p);
    SplitWord(p, ':');
    assert Entry(p, existing) == map[];
    CollectNext([p], 0, existing);
    assert [p][..1] == [p] && [p][..0] == [];
  }

  // ---------- what a text lists ----------

  /** The text has a record for the directory. */
  ghost predicate Listed(text: string, dir: string) { dir in Parse(text, {dir}) }

  lemma {:induction false} CollectKeys(lines: seq<string>, existing: set<string>, dir: string)
    ensures dir in Collect(lines, existing) <==> dir in existing && dir in Collect(lines, {dir})
  {
    if lines != [] {
      CollectKeys(lines[..|lines| - 1], existing, dir);
    }
  }

  /** Reading gives the listed directories that exist. */
  lemma ParseKeys(text: string, existing: set<string>, dir: string)
    ensures dir in Parse(text, existing) <==> dir in existing && Listed(text, dir)
  {
    CollectKeys(Split(text, '\n'), existing, dir);
  }

  /** A printout lists exactly the table's directories. */
  lemma PrintedLists(order: seq<string>, ds: Directories, dir: string)
    requires IsOrder(order, ds) && AllPlain(ds)
    ensures Listed(Print(order, ds), dir) <==> dir in ds
  {
    hide Print, Parse, Plain;
    PrintedRoundTrip(order, ds, {dir});
    assert order != [] ==> order[0] in order;
  }

  // ----- whatever is read can be printed and read again -----

  lemma {:induction false} SplitClean(s: string, sep: char, c: char)
    requires c == sep || c !in s
    ensures forall i :: 0 <= i < |Split(s, sep)| ==> c !in Split(s, sep)[i]
  {
    if s != [] {
      SplitClean(s[1..], sep, c);
    }
  }

  lemma {:induction false} LastField(s: string, sep: char)
    ensures var r := Split(s, sep);
      r[|r| - 1] != "" ==> s != "" && r[|r| - 1][|r[|r| - 1]| - 1] == s[|s| - 1]
  {
    if s != [] {
      LastField(s[1..], sep);
    }
  }

  lemma {:induction false} TrimRightEnds(s: string)
    ensures var t := TrimRight(s);
      (forall c :: c in t ==> c in s) && (t == "" || !IsSpace(t[|t| - 1]))
  {
    if s != [] && IsSpace(s[|s| - 1]) {
      TrimRightEnds(s[..|s| - 1]);
    }
  }

  lemma {:induction false} TrimLeftKeeps(s: string)
    ensures forall c :: c in TrimLeft(s) ==> c in s
  {
    if s != [] && IsSpace(s[0]) {
      TrimLeftKeeps(s[1..]);
    }
  }

  lemma ParsedLinePlain(line: string)
    requires '\n' !in line && ParseLine(line).Some?
    ensures Plain(ParseLine(line).value.0, ParseLine(line).value.1.cap)
  {
    hide TrimLeft, TrimRight, Split;
    TrimLeftKeeps(line);
    TrimRightEnds(TrimLeft(line));
    SplitClean(TrimSpace(line), ':', ':');
    SplitClean(TrimSpace(line), ':', '\n');
    LastField(TrimSpace(line), ':');
  }

  lemma {:induction false} CollectedPlain(lines: seq<string>, existing: set<string>)
    requires forall i :: 0 <= i < |lines| ==> '\n' !in lines[i]
    ensures AllPlain(Collect(lines, existing))
  {
    hide Plain, ParseLine;
    if lines != [] {
      CollectedPlain(lines[..|lines| - 1], existing);
      var line := lines[|lines| - 1];
      if ParseLine(line).Some? {
        ParsedLinePlain(line);
      }
    }
  }

  lemma ParsedPlain(text: string, existing: set<string>)
    ensures AllPlain(Parse(text, existing))
  {
    hide AllPlain;
    SplitClean(text, '\n', '\n');
    CollectedPlain(Split(text, '\n'), existing);
  }

  // ---------- distinct IDs across reloads ----------

  ghost predicate DistinctIDs(ds: Directories) {
    forall d, e :: d in ds && e in ds && d != e ==> ds[d].id != ds[e].id
  }

  /** The directory printed first loses its ID to one that has ID 0 already. */
  ghost predicate Collides(order: seq<string>, ds: Directories, existing: set<string>) {
    && order != [] && order[0] in existing
    && exists d :: d in ds && d in existing && d != order[0] && ds[d].id == 0
  }

  /** IDs stay distinct across a reload exactly unless the directory printed first still exists and so
      does another one with ID 0. */
  lemma ReloadDistinctIff(order: seq<string>, ds: Directories, existing: set<string>)
    requires IsOrder(order, ds) && DistinctIDs(ds)
    ensures DistinctIDs(Existing(Reloaded(order, ds), existing)) <==> !Collides(order, ds, existing)
  {
    var after := Existing(Reloaded(order, ds), existing);
    if Collides(order, ds, existing) {
      var d :| d in ds && d in existing && d != order[0] && ds[d].id == 0;
      assert order[0] in order;
      assert after[order[0]].id == after[d].id;
    } else if order != [] {
      forall d, e | d in after && e in after && d != e ensures after[d].id != after[e].id {
        assert order[0] in existing ==> d == order[0] || ds[d].id != 0;
      }
    }
  }

  /** Whatever the visiting order, a reload keeps IDs distinct exactly when no ID is 0 or there are
      fewer than two directories. */
  lemma EveryReloadDistinctIff(ds: Directories)
    requires DistinctIDs(ds)
    ensures (forall order :: IsOrder(order, ds) ==> DistinctIDs(Existing(Reloaded(order, ds), ds.Keys)))
       <==> (|ds| < 2 || forall d :: d in ds ==> ds[d].id != 0)
  {
    if |ds| < 2 || forall d :: d in ds ==> ds[d].id != 0 {
      forall order | IsOrder(order, ds) ensures DistinctIDs(Existing(Reloaded(order, ds), ds.Keys)) {
        ReloadDistinctIff(order, ds, ds.Keys);
        assert order != [] ==> order[0] in order;
        AtMostOne(ds);
      }
    } else {
      var d :| d in ds && ds[d].id == 0;
      var e := Another(ds, d);
      var order := FirstVisited(e, ds);
      ReloadDistinctIff(order, ds, ds.Keys);
    }
  }

  lemma AtMostOne(ds: Directories)
    ensures |ds| < 2 ==> forall d, e :: d in ds && e in ds ==> d == e
  {
    forall d, e | d in ds && e in ds && d != e ensures |ds| >= 2 {
      SubsetSize({d, e}, ds.Keys);
    }
  }

  lemma Another(ds: Directories, d: string) returns (e: string)
    requires d in ds && |ds| >= 2
    ensures e in ds && e != d
  {
    if forall x :: x in ds.Keys ==> x in {d} {
      SubsetSize(ds.Keys, {d});
    }
    e :| e in ds.Keys && e !in {d};
  }

  /** A second reload that happens to visit another directory first gives two directories ID 0. */
  lemma SecondReloadCollides(first: seq<string>, second: seq<string>, ds: Directories)
    requires IsOrder(first, ds) && IsOrder(second, ds)
    requires first != [] && second != [] && first[0] != second[0]
    ensures !DistinctIDs(Reloaded(second, Reloaded(first, ds)))
  {
    var twice := Reloaded(second, Reloaded(first, ds));
    assert first[0] in ds && second[0] in ds;
    assert twice[first[0]].id == 0 && twice[second[0]].id == 0;
  }

  // ---------- what a line is ----------

  function Join(parts: seq<string>, sep: char): string
    requires parts != []
  {
    if |parts| == 1 then parts[0] else parts[0] + [sep] + Join(parts[1..], sep)
  }

  lemma {:induction false} SplitJoins(s: string, sep: char)
    ensures Join(Split(s, sep), sep) == s
  {
    if s != [] {
      SplitJoins(s[1..], sep);
      var r := Split(s[1..], sep);
      if s[0] == sep {
        assert ([[]] + r)[1..] == r;
      } else {
        var t := [[s[0]] + r[0]] + r[1..];
        assert t[1..] == r[1..];
        assert |r| > 1 ==> t[0] + [sep] + Join(t[1..], sep) == [s[0]] + (r[0] + [sep] + Join(r[1..], sep));
      }
    }
  }

  /** The text without space around it. */
  ghost predicate TrimmedTo(s: string, t: string) {
    && (t == "" || (!IsSpace(t[0]) && !IsSpace(t[|t| - 1])))
    && exists i, j :: 0 <= i <= j <= |s| && t == s[i..j]
         && (forall k :: 0 <= k < i ==> IsSpace(s[k])) && forall k :: j <= k < |s| ==> IsSpace(s[k])
  }

  lemma {:induction false} TrimmedLeft(s: string) returns (i: nat)
    ensures i <= |s| && TrimLeft(s) == s[i..] && forall k :: 0 <= k < i ==> IsSpace(s[k])
    ensures i < |s| ==> !IsSpace(s[i])
  {
    i := 0;
    if s != [] && IsSpace(s[0]) {
      var j := TrimmedLeft(s[1..]);
      i := j + 1;
      assert forall k :: 1 <= k < i ==> s[k] == s[1..][k - 1];
      assert s[1..][j..] == s[i..];
      assert j < |s[1..]| ==> s[1..][j] == s[i];
    }
  }

  lemma {:induction false} TrimmedRight(s: string) returns (j: nat)
    ensures j <= |s| && TrimRight(s) == s[..j] && forall k :: j <= k < |s| ==> IsSpace(s[k])
    ensures j > 0 ==> !IsSpace(s[j - 1])
  {
    j := |s|;
    if s != [] && IsSpace(s[|s| - 1]) {
      var front := s[..|s| - 1];
      j := TrimmedRight(front);
      assert front[..j] == s[..j];
      assert forall k :: j <= k < |s| - 1 ==> s[k] == front[k];
    }
  }

  lemma TrimSpaceIs(s: string)
    ensures TrimmedTo(s, TrimSpace(s))
  {
    var i := TrimmedLeft(s);
    var j := TrimmedRight(s[i..]);
    var t := TrimSpace(s);
    assert t == s[i..i + j];
    assert forall k :: i + j <= k < |s| ==> s[k] == s[i..][k - i];
    assert t != "" ==> t[0] == s[i] && t[|t| - 1] == s[i..][j - 1];
  }

  /** A line is a record exactly when, trimmed, it is a number, a directory and a cap with a colon between
      them; the number counts as ParseUint reads it, also when it is none. */
  lemma ParseLineIff(line: string, dir: string, info: Info)
    ensures ParseLine(line) == Some((dir, info)) <==>
      exists number :: && TrimSpace(line) == number + ":" + dir + ":" + info.cap
                       && ':' !in number && ':' !in dir && ':' !in info.cap
                       && info.id == ParseUint(number, 65535).value
  {
    hide TrimLeft, TrimRight, ParseUint;
    var t := TrimSpace(line);
    var fields := Split(t, ':');
    SplitClean(t, ':', ':');
    SplitJoins(t, ':');
    if |fields| == 3 {
      assert fields[1..][1..] == [fields[2]];
      assert Join(fields[1..], ':') == fields[1] + [':'] + fields[2];
      assert t == fields[0] + ":" + fields[1] + ":" + fields[2];
    }
    forall number | t == number + ":" + dir + ":" + info.cap && ':' !in number && ':' !in dir && ':' !in info.cap
      ensures fields == [number, dir, info.cap]
    {
      FieldsOf(number, dir, info.cap);
    }
  }

  /** The i-th line is the last record of the directory. */
  ghost predicate LastRecord(lines: seq<string>, i: nat, dir: string, info: Info) {
    && i < |lines| && ParseLine(lines[i]) == Some((dir, info))
    && forall j :: i < j < |lines| ==> ParseLine(lines[j]).None? || ParseLine(lines[j]).value.0 != dir
  }

  /** Of several records of a directory the last one counts. */
  lemma {:induction false} LastRecordCounts(lines: seq<string>, existing: set<string>, dir: string) returns (i: nat)
    requires dir in Collect(lines, existing)
    ensures LastRecord(lines, i, dir, Collect(lines, existing)[dir])
  {
    hide ParseLine;
    var n := |lines| - 1;
    var e := ParseLine(lines[n]);
    if e.Some? && e.value.0 == dir && dir in existing {
      i := n;
    } else {
      i := LastRecordCounts(lines[..n], existing, dir);
      CollectExist(lines[..n], existing);
      assert forall j :: 0 <= j < n ==> lines[j] == lines[..n][j];
    }
  }

  /** A directory is in the table exactly when it exists and some line is a record of it. */
  lemma {:induction false} CollectIff(lines: seq<string>, existing: set<string>, dir: string)
    ensures dir in Collect(lines, existing) <==>
      && dir in existing
      && exists i, info :: 0 <= i < |lines| && ParseLine(lines[i]) == Some((dir, info))
  {
    hide ParseLine;
    if lines != [] {
      var n := |lines| - 1;
      CollectIff(lines[..n], existing, dir);
      assert forall j :: 0 <= j < n ==> lines[j] == lines[..n][j];
      if ParseLine(lines[n]).Some? && ParseLine(lines[n]).value.0 == dir {
        assert ParseLine(lines[n]) == Some((dir, ParseLine(lines[n]).value.1));
      }
    }
  }

  lemma {:induction false} CollectExist(lines: seq<string>, existing: set<string>)
    ensures Collect(lines, existing).Keys <= existing
  {
    hide ParseLine;
    if lines != [] {
      CollectExist(lines[..|lines| - 1], existing);
    }
  }
}
