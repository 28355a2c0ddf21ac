// ListSnapshots: pages of the snapshots sorted by ID, chained by decimal tokens.
module Paging {
  import opened Base
  import opened Lists
  import opened Sorting
  import opened State
  import opened Driver

  const TWO31: int := 0x8000_0000
  const MAX_UINT32: nat := 0xFFFF_FFFF

  datatype Page = PageFailed(code: Code) | PageOf(entries: seq<Listing>, nextToken: string)

  function SortedListings(snapshots: seq<Snapshot>): (r: seq<Listing>)
    ensures |r| == |snapshots|
  {
    Listings(SortBy(snapshots, SnapshotID), true)
  }

  /** Position a token stands for; None when it cannot be read. */
  function StartOf(token: string): Option<nat> {
    if token == "" then Some(0)
    else
      var p := ParseUint(token, MAX_UINT32);
      if p.ok then Some(p.value) else None
  }

  /** Tokens above the largest int32 would become negative positions; the driver never issues them. */
  predicate TokenFits(token: string) { StartOf(token).Some? ==> StartOf(token).value < TWO31 }

  function TokenAt(all: seq<Listing>, j: nat): string {
    if j < |all| then PrintNat(j) else ""
  }

  function PageAt(all: seq<Listing>, maxEntries: nat, token: string): Page {
    match StartOf(token)
    case None => PageFailed(Aborted)
    case Some(start) =>
      if start > |all| then PageFailed(Aborted)
      else
        var rem := |all| - start;
        var n := if maxEntries == 0 || maxEntries > rem then rem else maxEntries;
        PageOf(all[start..start + n], TokenAt(all, start + n))
  }

  /** By snapshot ID, else by source volume (the first match only), else a page of all. */
  function List(cfg: Config, snapshots: seq<Snapshot>, id: string, volID: string, maxEntries: nat,
                token: string): Page
  {
    if cfg.ephemeral then PageFailed(InvalidArgument)
    else if id != "" then
      match Find(snapshots, SnapshotID, id)
      case None => PageOf([], "")
      case Some(s) => PageOf([ListingOf(s)], "")
    else if volID != "" then
      match Find(snapshots, SnapshotVolume, volID)
      case None => PageOf([], "")
      case Some(s) => PageOf([ListingOf(s)], "")
    else PageAt(SortedListings(snapshots), maxEntries, token)
  }

  function SnapshotVolume(s: Snapshot): string { s.volID }

  method ReadPage(all: seq<Listing>, maxEntries: nat, token: string) returns (page: Page)
    requires |all| < TWO31 && TokenFits(token)
    ensures page == PageAt(all, maxEntries, token)
  {
    var start := 0;
    if token != "" {
      var p := ParseUint(token, MAX_UINT32);
      if !p.ok {
        return PageFailed(Aborted);
      }
      start := p.value;
    }
    if start > |all| {
      return PageFailed(Aborted);
    }
    var rem := |all| - start;
    var n := if maxEntries == 0 || maxEntries > rem then rem else maxEntries;
    var entries: seq<Listing>, j := [], start;
    for i := 0 to n
      invariant j == start + i && entries == all[start..j]
    {
      entries := entries + [all[j]];
      j := j + 1;
    }
    page := PageOf(entries, if j < |all| then PrintNat(j) else "");
  }

  // ---------- the order is determined ----------

  /** With unique IDs every way of sorting gives the same list, so an unstable sort does no harm,
      and it contains each stored snapshot once. */
  lemma SortIsDetermined(snapshots: seq<Snapshot>, t: seq<Snapshot>)
    requires Unique(snapshots, SnapshotID) && multiset(t) == multiset(snapshots) && SortedBy(t, SnapshotID)
    ensures t == SortBy(snapshots, SnapshotID)
    ensures multiset(SortBy(snapshots, SnapshotID)) == multiset(snapshots)
  {
    SortSorted(snapshots, SnapshotID);
    forall i, j | 0 <= i < |t| && 0 <= j < |t| && SnapshotID(t[i]) == SnapshotID(t[j]) ensures t[i] == t[j] {
      assert t[i] in multiset(snapshots) && t[j] in multiset(snapshots);
      var k :| 0 <= k < |snapshots| && snapshots[k] == t[i];
      var l :| 0 <= l < |snapshots| && snapshots[l] == t[j];
      assert k < l ==> SnapshotID(snapshots[k]) != SnapshotID(snapshots[l]);
      assert l < k ==> SnapshotID(snapshots[l]) != SnapshotID(snapshots[k]);
    }
    SortedIsUnique(t, SortBy(snapshots, SnapshotID), SnapshotID);
  }

  // ---------- following the tokens ----------

  lemma TokenReadsBack(all: seq<Listing>, j: nat)
    requires |all| < TWO31 && j < |all|
    ensures TokenAt(all, j) != "" && StartOf(TokenAt(all, j)) == Some(j) && TokenFits(TokenAt(all, j))
  {
    ParsePrinted(j, MAX_UINT32);
  }

  /** A page that names a next token makes progress, and the token stands for where the page ends. */
  lemma PageProgress(all: seq<Listing>, maxEntries: nat, token: string)
    requires |all| < TWO31 && StartOf(token).Some? && StartOf(token).value <= |all|
    ensures var start, p := StartOf(token).value, PageAt(all, maxEntries, token);
      && p.PageOf? && start + |p.entries| <= |all| && p.entries == all[start..start + |p.entries|]
      && (p.nextToken != "" ==>
            && StartOf(p.nextToken) == Some(start + |p.entries|)
            && 0 < |p.entries| && start + |p.entries| < |all|)
      && (p.nextToken == "" ==> start + |p.entries| == |all|)
  {
    var start, p := StartOf(token).value, PageAt(all, maxEntries, token);
    var end := start + |p.entries|;
    if end < |all| {
      TokenReadsBack(all, end);
    }
  }

  /** All entries a caller collects from the given token on, choosing a page size for each call. */
  ghost function Follow(all: seq<Listing>, sizes: nat -> nat, call: nat, token: string): seq<Listing>
    requires |all| < TWO31 && StartOf(token).Some? && StartOf(token).value <= |all|
    decreases |all| - StartOf(token).value
  {
    var p := PageAt(all, sizes(call), token);
    PageProgress(all, sizes(call), token);
    if p.nextToken == "" then p.entries else p.entries + Follow(all, sizes, call + 1, p.nextToken)
  }

  lemma {:induction false} FollowCollectsRest(all: seq<Listing>, sizes: nat -> nat, call: nat, token: string)
    requires |all| < TWO31 && StartOf(token).Some? && StartOf(token).value <= |all|
    ensures Follow(all, sizes, call, token) == all[StartOf(token).value..]
    decreases |all| - StartOf(token).value
  {
    var p := PageAt(all, sizes(call), token);
    PageProgress(all, sizes(call), token);
    if p.nextToken != "" {
      FollowCollectsRest(all, sizes, call + 1, p.nextToken);
    }
  }

  /** Following the tokens from the empty one until none comes back ends, and the pages together are
      exactly the sorted snapshots, whatever page size is asked for in each call. */
  lemma PagesAreTheList(snapshots: seq<Snapshot>, sizes: nat -> nat)
    requires |snapshots| < TWO31
    ensures Follow(SortedListings(snapshots), sizes, 0, "") == SortedListings(snapshots)
  {
    FollowCollectsRest(SortedListings(snapshots), sizes, 0, "");
  }
}
