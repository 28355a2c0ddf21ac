// Allocation of 16-bit XFS project IDs: a counter that starts at 1, skips the reserved
// ID and every ID in use, and wraps to 0 because its loop test can never fail.
module ProjectIDs {

  const RESERVED := 152
  const IDS := 0x1_0000

  type uint16 = x: int | 0 <= x < IDS

  datatype Info = Info(id: uint16, cap: string)

  ghost predicate Taken(ds: map<string, Info>, id: uint16) {
    exists d :: d in ds && ds[d].id == id
  }

  ghost predicate Free(ds: map<string, Info>, id: uint16) {
    id != RESERVED && !Taken(ds, id)
  }

  ghost predicate HasFree(ds: map<string, Info>) {
    exists id: uint16 :: Free(ds, id)
  }

  /** The ID under test after n passes of the loop. */
  function Counter(n: nat): uint16 { (1 + n) % IDS }

  /** Least free ID among from..65535, or 0 when they are used up. */
  ghost function LeastFree(ds: map<string, Info>, from: int): (id: uint16)
    requires 1 <= from <= IDS
    ensures id != 0 ==> from <= id && Free(ds, id)
    ensures forall j: uint16 :: from <= j && (id == 0 || j < id) ==> !Free(ds, j)
    decreases IDS - from
  {
    if from == IDS then 0
    else if Free(ds, from) then from
    else LeastFree(ds, from + 1)
  }

  ghost function NextID(ds: map<string, Info>): uint16 { LeastFree(ds, 1) }

  lemma NextIsFree(ds: map<string, Info>)
    requires HasFree(ds)
    ensures Free(ds, NextID(ds))
  {
    if NextID(ds) == 0 {
      var id: uint16 :| Free(ds, id);
    }
  }

  lemma FreePass(ds: map<string, Info>) returns (n: nat)
    requires HasFree(ds)
    ensures n < IDS && Free(ds, Counter(n))
  {
    hide Free;
    var free: uint16 :| Free(ds, free);
    n := if free == 0 then IDS - 1 else free - 1;
    assert Counter(n) == free;
  }

  /** The loop leaves at some pass exactly when some ID other than the reserved one is unused. */
  lemma TerminatesIff(ds: map<string, Info>)
    ensures (exists n: nat :: Free(ds, Counter(n))) <==> HasFree(ds)
  {
    if HasFree(ds) {
      var n := FreePass(ds);
    }
  }

  /** 0 is chosen only after every ID from 1 up has been used. */
  lemma ZeroIsLast(ds: map<string, Info>)
    requires NextID(ds) == 0
    ensures forall id: uint16 :: 1 <= id ==> id == RESERVED || Taken(ds, id)
  {
    forall id: uint16 | 1 <= id && id != RESERVED ensures Taken(ds, id) {
      assert !Free(ds, id);
    }
  }

  ghost function IDSet(ds: map<string, Info>): set<int> { set d | d in ds :: ds[d].id }

  lemma {:induction false} IDSetSize(ds: map<string, Info>)
    ensures |IDSet(ds)| <= |ds|
    decreases |ds|
  {
    if ds != map[] {
      var d :| d in ds;
      var rest := ds - {d};
      assert rest.Keys == ds.Keys - {d};
      IDSetSize(rest);
      assert IDSet(ds) == IDSet(rest) + {ds[d].id} by {
        forall x | x in IDSet(ds) ensures x in IDSet(rest) + {ds[d].id} {
          var e :| e in ds && ds[e].id == x;
          assert e != d ==> e in rest && rest[e].id == x;
        }
        forall x | x in IDSet(rest) ensures x in IDSet(ds) {
          var e :| e in rest && rest[e].id == x;
          assert e in ds;
        }
      }
    } else {
      assert IDSet(ds) == {};
    }
  }

  function UpTo(n: nat): (s: set<int>)
    ensures forall x :: x in s <==> 1 <= x <= n
    ensures |s| == n
  {
    if n == 0 then {} else UpTo(n - 1) + {n}
  }

  lemma {:induction false} SubsetSize<T>(a: set<T>, b: set<T>)
    requires a <= b
    ensures |a| <= |b|
  {
    if x :| x in a {
      SubsetSize(a - {x}, b - {x});
    } else {
      assert a == {};
    }
  }

  lemma AllTakenMeansFull(ds: map<string, Info>, last: nat)
    requires RESERVED <= last < IDS
    requires forall id: uint16 :: 1 <= id <= last ==> !Free(ds, id)
    ensures |ds| >= last - 1
  {
    var wanted := UpTo(last) - {RESERVED};
    forall x | x in wanted ensures x in IDSet(ds) {
      assert !Free(ds, x);
    }
    SubsetSize(wanted, IDSet(ds));
    IDSetSize(ds);
  }

  /** Pigeonhole: with fewer than 65534 directories there is an unused ID in 1..65535 other than 152. */
  lemma RoomBelowLimit(ds: map<string, Info>)
    requires |ds| < 65534
    ensures HasFree(ds) && NextID(ds) != 0
  {
    if NextID(ds) == 0 {
      AllTakenMeansFull(ds, 65535);
    }
    assert Free(ds, NextID(ds));
  }

  method UsedIDs(ds: map<string, Info>) returns (ids: set<uint16>)
    ensures forall id: uint16 :: id in ids <==> Taken(ds, id)
  {
    ids := {};
    var rest := ds.Keys;
    while rest != {}
      invariant rest <= ds.Keys
      invariant forall id: uint16 :: id in ids <==> exists d :: d in ds && d !in rest && ds[d].id == id
      decreases rest
    {
      var d :| d in rest;
      ids, rest := ids + {ds[d].id}, rest - {d};
    }
  }

  /** The loop has tested the counters of so many passes in vain. */
  ghost predicate Tried(ds: map<string, Info>, id: uint16, passes: nat) {
    && id == Counter(passes) && passes < IDS
    && forall n :: 0 <= n < passes ==> !Free(ds, Counter(n))
  }

  /** Another failed test: some ID is free, so not every one has been tested. */
  lemma TriedNext(ds: map<string, Info>, id: uint16, passes: nat)
    requires HasFree(ds) && Tried(ds, id, passes) && !Free(ds, id)
    ensures Tried(ds, (id + 1) % IDS, passes + 1)
  {
    hide Free;
    assert (Counter(passes) + 1) % IDS == Counter(passes + 1);
    var n := FreePass(ds);
  }

  /** The first free counter is the least unused ID. */
  lemma TriedLeast(ds: map<string, Info>, id: uint16, passes: nat)
    requires Tried(ds, id, passes) && Free(ds, id)
    ensures id == NextID(ds)
  {
    hide Free, LeastFree;
    forall j: uint16 | 1 <= j && (id == 0 || j < id) ensures !Free(ds, j) {
      assert Counter(j - 1) == j;
    }
  }

  /** The loop leaves at the first pass whose counter is free, which is the least unused ID. */
  method GenerateID(ds: map<string, Info>) returns (id: uint16)
    requires HasFree(ds)
    ensures id == NextID(ds) && Free(ds, id)
    ensures exists passes: nat :: id == Counter(passes) && forall n :: 0 <= n < passes ==> !Free(ds, Counter(n))
  {
    var ids := UsedIDs(ds);
    ghost var passes: nat := 0;
    id := 1;
    while true
      invariant Tried(ds, id, passes)
      decreases IDS - passes
    {
      hide Taken;
      if id !in ids {
        if id == RESERVED {
          TriedNext(ds, id, passes);
          id, passes := (id + 1) % IDS, passes + 1;
          continue;
        }
        break;
      }
      TriedNext(ds, id, passes);
      id, passes := (id + 1) % IDS, passes + 1;
    }
    TriedLeast(ds, id, passes);
  }

  /** What the next ID is: never 152 and never one in use, the least of 1 to 65535 or else 0. */
  lemma NextIs(ds: map<string, Info>)
    requires HasFree(ds)
    ensures var id := NextID(ds);
      && id != 152 && (forall d :: d in ds ==> ds[d].id != id)
      && forall j: uint16 :: 1 <= j && (id == 0 || j < id) ==> j == 152 || Taken(ds, j)
  {
    NextIsFree(ds);
    forall j: uint16 | 1 <= j && (NextID(ds) == 0 || j < NextID(ds)) ensures j == 152 || Taken(ds, j) {
      assert !Free(ds, j);
    }
  }
}
