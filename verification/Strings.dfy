// The Strings type: a slice header over an array that other headers may share.
// A copied volume record shares these arrays with the stored one, so the contracts say
// what the changed header reads, and what a header copied before the change reads.
module Strings {
  import opened Lists
  import opened Sorting

  datatype Slice = Slice(buf: array<string>, len: nat)

  ghost predicate Fits(s: Slice) { s.len <= s.buf.Length }

  ghost function Items(s: Slice): seq<string>
    requires Fits(s)
    reads s.buf
  {
    s.buf[..s.len]
  }

  /** Appends. In spare room the shared array is written just past the header's end,
      otherwise the items move to a new array; the old header reads the same either way. */
  method Add(s: Slice, str: string) returns (t: Slice)
    requires Fits(s)
    modifies s.buf
    ensures Fits(t) && Items(t) == old(Items(s)) + [str]
    ensures Items(s) == old(Items(s))
    ensures if s.len < s.buf.Length then t.buf == s.buf && s.buf[..] == old(s.buf[..])[s.len := str]
            else fresh(t.buf) && s.buf[..] == old(s.buf[..])
  {
    if s.len < s.buf.Length {
      s.buf[s.len] := str;
      t := Slice(s.buf, s.len + 1);
    } else {
      var room := new string[2 * s.len + 1](i => "");
      forall i | 0 <= i < s.len {
        room[i] := s.buf[i];
      }
      room[s.len] := str;
      t := Slice(room, s.len + 1);
    }
  }

  method Has(s: Slice, str: string) returns (found: bool)
    requires Fits(s)
    ensures found <==> str in Items(s)
  {
    var i := 0;
    while i < s.len
      invariant i <= s.len
      invariant str !in s.buf[..i]
    {
      if s.buf[i] == str {
        return true;
      }
      i := i + 1;
    }
    return false;
  }

  /** The copying that append(s[:i], s[i+1:]...) does in the shared array. */
  method RemoveAt(s: Slice, i: nat) returns (t: Slice)
    requires Fits(s) && i < s.len
    modifies s.buf
    ensures t == Slice(s.buf, s.len - 1)
    ensures Items(t) == old(Items(s))[..i] + old(Items(s))[i + 1..]
    ensures s.buf[s.len - 1..] == old(s.buf[s.len - 1..])
  {
    var k := i;
    while k + 1 < s.len
      invariant i <= k < s.len
      invariant forall j :: 0 <= j < i ==> s.buf[j] == old(s.buf[j])
      invariant forall j :: i <= j < k ==> s.buf[j] == old(s.buf[j + 1])
      invariant forall j :: k <= j < s.buf.Length ==> s.buf[j] == old(s.buf[j])
    {
      s.buf[k] := s.buf[k + 1];
      k := k + 1;
    }
    t := Slice(s.buf, s.len - 1);
  }

  /** Removes the first occurrence. The new header reads the list without it. The old
      header, one longer, reads the shifted items with the last one repeated. */
  method Remove(s: Slice, str: string) returns (t: Slice)
    requires Fits(s)
    modifies s.buf
    ensures Fits(t) && t.buf == s.buf
    ensures Items(t) == Drop(old(Items(s)), Self, str)
    ensures Items(s) == if str in old(Items(s)) then Items(t) + [old(Items(s))[s.len - 1]] else old(Items(s))
    ensures s.buf[s.len..] == old(s.buf[s.len..])
  {
    ghost var items := Items(s);
    var i := 0;
    while i < s.len
      invariant i <= s.len
      invariant str !in items[..i]
      invariant s.buf[..] == old(s.buf[..])
    {
      if s.buf[i] == str {
        FirstMatch(items, str, i);
        t := RemoveAt(s, i);
        LastStays(old(s.buf[..]), s.buf[..], s.len);
        return;
      }
      i := i + 1;
    }
    FirstMatch(items, str, i);
    t := s;
  }

  lemma FirstMatch(items: seq<string>, str: string, i: nat)
    requires i <= |items| && str !in items[..i] && (i < |items| ==> items[i] == str)
    ensures Drop(items, Self, str) == if i < |items| then items[..i] + items[i + 1..] else items
    ensures str in items <==> i < |items|
  {
    assert forall j :: 0 <= j < i ==> Self(items[j]) != str by {
      assert forall j :: 0 <= j < i ==> items[..i][j] == items[j];
    }
    if i < |items| {
      IndexIs(items, Self, str, i);
    }
  }

  lemma LastStays(before: seq<string>, after: seq<string>, n: nat)
    requires 0 < n <= |before| == |after| && after[n - 1..] == before[n - 1..]
    ensures after[..n] == after[..n - 1] + [before[..n][n - 1]] && after[n..] == before[n..]
  {
    assert after[n - 1..][0] == before[n - 1..][0];
    assert after[n..] == after[n - 1..][1..] && before[n..] == before[n - 1..][1..];
  }
}
