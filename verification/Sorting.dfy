// The order Go's sort package uses on strings, and what sorting a list by a string
// key yields: a permutation, in order, and the only one when keys tell records apart.
module Sorting {

  predicate Leq(a: string, b: string) {
    a == [] || (b != [] && (a[0] < b[0] || (a[0] == b[0] && Leq(a[1..], b[1..]))))
  }

  lemma LeqTotal(a: string, b: string)
    ensures Leq(a, b) || Leq(b, a)
  {
  }

  lemma LeqAntisymmetric(a: string, b: string)
    requires Leq(a, b) && Leq(b, a)
    ensures a == b
  {
    if a != [] {
      LeqAntisymmetric(a[1..], b[1..]);
      assert a == [a[0]] + a[1..] && b == [b[0]] + b[1..];
    }
  }

  lemma LeqTransitive(a: string, b: string, c: string)
    requires Leq(a, b) && Leq(b, c)
    ensures Leq(a, c)
  {
  }

  ghost predicate SortedBy<T>(s: seq<T>, key: T -> string) {
    forall i, j :: 0 <= i < j < |s| ==> Leq(key(s[i]), key(s[j]))
  }

  function InsertBy<T>(s: seq<T>, key: T -> string, x: T): (t: seq<T>)
    ensures multiset(t) == multiset(s) + multiset{x}
  {
    if s == [] || Leq(key(x), key(s[0])) then [x] + s
    else
      assert s == [s[0]] + s[1..];
      [s[0]] + InsertBy(s[1..], key, x)
  }

  function SortBy<T>(s: seq<T>, key: T -> string): (t: seq<T>)
    ensures multiset(t) == multiset(s)
    ensures |t| == |s|
  {
    if s == [] then []
    else
      assert s == [s[0]] + s[1..];
      var t := InsertBy(SortBy(s[1..], key), key, s[0]);
      assert |multiset(t)| == |t| && |multiset(s)| == |s|;
      t
  }

  lemma {:induction false} InsertSorted<T>(s: seq<T>, key: T -> string, x: T)
    requires SortedBy(s, key)
    ensures SortedBy(InsertBy(s, key, x), key)
  {
    if s == [] {
    } else if Leq(key(x), key(s[0])) {
      forall j | 0 <= j < |s| ensures Leq(key(x), key(s[j])) {
        if j > 0 { LeqTransitive(key(x), key(s[0]), key(s[j])); }
      }
    } else {
      LeqTotal(key(x), key(s[0]));
      var t := InsertBy(s[1..], key, x);
      InsertSorted(s[1..], key, x);
      forall j | 0 <= j < |t| ensures Leq(key(s[0]), key(t[j])) {
        assert t[j] in multiset(t);
        assert t[j] in multiset(s[1..]) + multiset{x};
        if t[j] != x {
          assert t[j] in s[1..];
        }
      }
    }
  }

  lemma {:induction false} SortSorted<T>(s: seq<T>, key: T -> string)
    ensures SortedBy(SortBy(s, key), key)
  {
    if s != [] {
      SortSorted(s[1..], key);
      InsertSorted(SortBy(s[1..], key), key, s[0]);
    }
  }

  ghost predicate KeyTellsApart<T>(s: seq<T>, key: T -> string) {
    forall i, j :: 0 <= i < |s| && 0 <= j < |s| && key(s[i]) == key(s[j]) ==> s[i] == s[j]
  }

  lemma HeadsAgree<T>(a: seq<T>, b: seq<T>, key: T -> string)
    requires SortedBy(a, key) && SortedBy(b, key) && KeyTellsApart(a, key)
    requires multiset(a) == multiset(b) && a != [] && b != []
    ensures a[0] == b[0]
  {
    assert a[0] in multiset(b) && b[0] in multiset(a);
    var i :| 0 <= i < |b| && b[i] == a[0];
    var j :| 0 <= j < |a| && a[j] == b[0];
    if i > 0 && j > 0 {
      LeqAntisymmetric(key(a[0]), key(b[0]));
    }
  }

  lemma TailMultiset<T>(a: seq<T>)
    requires a != []
    ensures multiset(a[1..]) == multiset(a) - multiset{a[0]}
  {
    assert a == [a[0]] + a[1..];
  }

  /** Two sorted lists of the same records are the same list when keys tell records apart,
      so the outcome does not depend on the sorting algorithm, stable or not. */
  lemma {:induction false} SortedIsUnique<T>(a: seq<T>, b: seq<T>, key: T -> string)
    requires SortedBy(a, key) && SortedBy(b, key) && KeyTellsApart(a, key)
    requires multiset(a) == multiset(b)
    ensures a == b
  {
    assert |multiset(a)| == |a| && |multiset(b)| == |b|;
    if a != [] {
      HeadsAgree(a, b, key);
      TailMultiset(a);
      TailMultiset(b);
      SortedIsUnique(a[1..], b[1..], key);
      assert a == [a[0]] + a[1..] && b == [b[0]] + b[1..];
    }
  }

  // ---------- lists of strings ----------

  function Self(s: string): string { s }

  /** What sort.Strings leaves behind. */
  function Sorted(s: seq<string>): (t: seq<string>)
    ensures multiset(t) == multiset(s) && |t| == |s|
  {
    SortBy(s, Self)
  }

  /** Two lists sort to the same list exactly when each is a permutation of the other. */
  lemma SortedEqualIffPermutation(a: seq<string>, b: seq<string>)
    ensures Sorted(a) == Sorted(b) <==> multiset(a) == multiset(b)
  {
    SortSorted(a, Self);
    SortSorted(b, Self);
    if multiset(a) == multiset(b) {
      SortedIsUnique(Sorted(a), Sorted(b), Self);
    }
  }

  // ---------- the order ----------

  /** Strings are compared where they first differ, and a prefix comes first. */
  ghost predicate Before(a: string, b: string) {
    exists k :: 0 <= k <= |a| && k <= |b| && a[..k] == b[..k] && (k == |a| || (k < |b| && a[k] < b[k]))
  }

  lemma {:induction false} LeqIff(a: string, b: string)
    ensures Leq(a, b) <==> Before(a, b)
  {
    if a == [] {
      assert a[..0] == b[..0];
    } else if b != [] {
      LeqIff(a[1..], b[1..]);
      if a[0] == b[0] && Leq(a[1..], b[1..]) {
        var k :| 0 <= k <= |a[1..]| && k <= |b[1..]| && a[1..][..k] == b[1..][..k]
          && (k == |a[1..]| || (k < |b[1..]| && a[1..][k] < b[1..][k]));
        assert a[..k + 1] == [a[0]] + a[1..][..k] && b[..k + 1] == [b[0]] + b[1..][..k];
      } else if a[0] < b[0] {
        assert a[..0] == b[..0];
      }
      if Before(a, b) && a[0] >= b[0] {
        var k :| 0 <= k <= |a| && k <= |b| && a[..k] == b[..k] && (k == |a| || (k < |b| && a[k] < b[k]));
        assert a[..k][0] == b[..k][0];
        assert a[1..][..k - 1] == a[..k][1..] && b[1..][..k - 1] == b[..k][1..];
      }
    }
  }
}
