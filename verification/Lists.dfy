// Lists of records searched by a key. Every list of the state store is searched
// front to back, updated at the first match or appended to, and shortened at the first match.
module Lists {
  import opened Base

  /** Position of the first record with key `k`, or |s| when there is none. */
  function IndexBy<T>(s: seq<T>, key: T -> string, k: string): (i: nat)
    ensures i <= |s|
    ensures i < |s| ==> key(s[i]) == k
    ensures forall j :: 0 <= j < i ==> key(s[j]) != k
  {
    if s == [] || key(s[0]) == k then 0 else 1 + IndexBy(s[1..], key, k)
  }

  function Find<T>(s: seq<T>, key: T -> string, k: string): Option<T> {
    var i := IndexBy(s, key, k);
    if i < |s| then Some(s[i]) else None
  }

  function Put<T>(s: seq<T>, key: T -> string, x: T): seq<T> {
    var i := IndexBy(s, key, key(x));
    if i < |s| then s[i := x] else s + [x]
  }

  function Drop<T>(s: seq<T>, key: T -> string, k: string): seq<T> {
    var i := IndexBy(s, key, k);
    if i < |s| then s[..i] + s[i + 1..] else s
  }

  ghost predicate Unique<T>(s: seq<T>, key: T -> string) {
    forall i, j :: 0 <= i < j < |s| ==> key(s[i]) != key(s[j])
  }

  /** No record has key `k`. */
  ghost predicate Absent<T>(s: seq<T>, key: T -> string, k: string) {
    forall i :: 0 <= i < |s| ==> key(s[i]) != k
  }

  /** The first match is determined by its own property. */
  lemma IndexIs<T>(s: seq<T>, key: T -> string, k: string, i: nat)
    requires i < |s| && key(s[i]) == k
    requires forall j :: 0 <= j < i ==> key(s[j]) != k
    ensures IndexBy(s, key, k) == i
  {
  }

  lemma PutUnique<T>(s: seq<T>, key: T -> string, x: T, other: T -> string)
    requires Unique(s, other)
    requires forall i :: 0 <= i < |s| && key(s[i]) != key(x) ==> other(s[i]) != other(x)
    requires Unique(s, key)
    ensures Unique(Put(s, key, x), other)
  {
    hide IndexBy;
  }

  lemma DropUnique<T>(s: seq<T>, key: T -> string, k: string, other: T -> string)
    requires Unique(s, other)
    ensures Unique(Drop(s, key, k), other)
  {
    hide IndexBy;
    var i := IndexBy(s, key, k);
    var t := Drop(s, key, k);
    if i < |s| {
      forall a, b | 0 <= a < b < |t|
        ensures other(t[a]) != other(t[b])
      {
        assert t[a] == s[if a < i then a else a + 1];
        assert t[b] == s[if b < i then b else b + 1];
      }
    }
  }

  lemma FindPut<T>(s: seq<T>, key: T -> string, x: T, k: string)
    ensures Find(Put(s, key, x), key, k) == if k == key(x) then Some(x) else Find(s, key, k)
  {
    hide IndexBy;
    var t, i := Put(s, key, x), IndexBy(s, key, key(x));
    var j := IndexBy(s, key, k);
    if k == key(x) {
      IndexIs(t, key, k, i);
    } else if j < |s| {
      IndexIs(t, key, k, j);
    }
  }

  /** Dropping by one key keeps the first match of another search, unless it is what is dropped. */
  lemma FindKeptByDrop<T>(s: seq<T>, key: T -> string, k: string, other: T -> string, n: string)
    requires Find(s, other, n).Some? && key(Find(s, other, n).value) != k
    ensures Find(Drop(s, key, k), other, n) == Find(s, other, n)
  {
    hide IndexBy;
    var i, j := IndexBy(s, key, k), IndexBy(s, other, n);
    if i < |s| {
      assert i != j;
      ShiftedSearch(s, i, other, n, j);
    }
  }

  lemma ShiftedSearch<T>(s: seq<T>, i: nat, other: T -> string, n: string, j: nat)
    requires i < |s| && j < |s| && i != j
    requires other(s[j]) == n && forall m :: 0 <= m < j ==> other(s[m]) != n
    ensures Find(s[..i] + s[i + 1..], other, n) == Some(s[j])
  {
    hide IndexBy;
    var t := s[..i] + s[i + 1..];
    if j < i {
      assert forall m :: 0 <= m <= j ==> t[m] == s[m];
      IndexIs(t, other, n, j);
    } else {
      assert forall m :: 0 <= m < i ==> t[m] == s[m];
      assert forall m :: i <= m < j ==> t[m] == s[m + 1];
      IndexIs(t, other, n, j - 1);
    }
  }

  lemma FindDropped<T>(s: seq<T>, key: T -> string, k: string)
    requires Unique(s, key)
    ensures Absent(Drop(s, key, k), key, k)
  {
    hide IndexBy;
  }

  /** Dropping one key leaves the search for another as it was. */
  lemma FindOther<T>(s: seq<T>, key: T -> string, gone: string, k: string)
    requires k != gone
    ensures Find(Drop(s, key, gone), key, k) == Find(s, key, k)
  {
    if Find(s, key, k).Some? {
      FindKeptByDrop(s, key, gone, key, k);
    } else {
      hide IndexBy;
      var t := Drop(s, key, gone);
      if Find(t, key, k).Some? {
        var i := DropMember(s, key, gone, IndexBy(t, key, k));
      }
    }
  }

  /** Every record left by Drop was there before. */
  lemma DropMember<T>(s: seq<T>, key: T -> string, k: string, j: nat) returns (i: nat)
    requires j < |Drop(s, key, k)|
    ensures i < |s| && Drop(s, key, k)[j] == s[i]
  {
    hide IndexBy;
    i := if IndexBy(s, key, k) <= j && IndexBy(s, key, k) < |s| then j + 1 else j;
  }

  /** A record with a new key is appended, and dropping it again restores the list. */
  lemma PutThenDrop<T>(s: seq<T>, key: T -> string, x: T)
    requires Absent(s, key, key(x))
    ensures Find(s, key, key(x)).None? && Put(s, key, x) == s + [x]
    ensures Find(s + [x], key, key(x)) == Some(x) && Drop(s + [x], key, key(x)) == s
  {
    IndexIs(s + [x], key, key(x), |s|);
  }

  lemma PutTwice<T>(s: seq<T>, key: T -> string, x: T, y: T)
    requires key(x) == key(y)
    ensures Put(Put(s, key, x), key, y) == Put(s, key, y)
  {
    hide IndexBy;
    IndexIs(Put(s, key, x), key, key(x), IndexBy(s, key, key(x)));
  }

  // ---------- sums ----------

  function SumBy<T>(s: seq<T>, f: T -> int): int {
    if s == [] then 0 else SumBy(s[..|s| - 1], f) + f(s[|s| - 1])
  }

  lemma SumAppend<T>(s: seq<T>, f: T -> int, x: T)
    ensures SumBy(s + [x], f) == SumBy(s, f) + f(x)
  {
    assert (s + [x])[..|s|] == s;
  }

  lemma {:induction false} SumConcat<T>(s: seq<T>, t: seq<T>, f: T -> int)
    ensures SumBy(s + t, f) == SumBy(s, f) + SumBy(t, f)
  {
    if t == [] {
      assert s + t == s;
    } else {
      var t' := t[..|t| - 1];
      assert (s + t)[..|s + t| - 1] == s + t';
      SumConcat(s, t', f);
    }
  }

  lemma SumSplit<T>(s: seq<T>, f: T -> int, i: nat)
    requires i < |s|
    ensures SumBy(s, f) == SumBy(s[..i], f) + f(s[i]) + SumBy(s[i + 1..], f)
  {
    assert s == (s[..i] + [s[i]]) + s[i + 1..];
    SumConcat(s[..i] + [s[i]], s[i + 1..], f);
    SumAppend(s[..i], f, s[i]);
  }

  lemma SumPut<T>(s: seq<T>, key: T -> string, x: T, f: T -> int)
    ensures SumBy(Put(s, key, x), f) == SumBy(s, f) + f(x)
      - match Find(s, key, key(x)) { case Some(y) => f(y) case None => 0 }
  {
    hide IndexBy;
    var i := IndexBy(s, key, key(x));
    if i < |s| {
      SumSplit(s, f, i);
      SumSplit(s[i := x], f, i);
      assert s[i := x][..i] == s[..i] && s[i := x][i + 1..] == s[i + 1..];
    } else {
      SumAppend(s, f, x);
    }
  }

  lemma SumDrop<T>(s: seq<T>, key: T -> string, k: string, f: T -> int)
    ensures SumBy(Drop(s, key, k), f) == SumBy(s, f)
      - match Find(s, key, k) { case Some(y) => f(y) case None => 0 }
  {
    var i := IndexBy(s, key, k);
    if i < |s| {
      SumSplit(s, f, i);
      SumConcat(s[..i], s[i + 1..], f);
    }
  }
}
