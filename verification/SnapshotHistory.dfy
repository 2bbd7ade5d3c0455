/** Cursor pagination of the snapshot history, on the server and in the client (`SnapshotHistory.ts`, `snapshot-history.ts`). */
module SnapshotHistory {
  import opened JsStrings
  import opened Model

  datatype SnapshotInfo = SnapshotInfo(id: SnapshotId, time: Option<int>)

  datatype Page = Page(snapshots: seq<SnapshotInfo>, hasMore: bool, nextBefore: Option<SnapshotId>)

  datatype PageError = UnknownCursor

  ghost predicate UniqueIds(s: seq<SnapshotInfo>) {
    forall i, j | 0 <= i < j < |s| :: s[i].id != s[j].id
  }

  /** `findIndex` on the id; the length of the list when absent. */
  function IndexOf(s: seq<SnapshotInfo>, id: SnapshotId): (i: nat)
    ensures i <= |s|
    ensures i < |s| ==> s[i].id == id
    ensures forall k | 0 <= k < i :: s[k].id != id
  {
    if s == [] || s[0].id == id then 0 else 1 + IndexOf(s[1..], id)
  }

  function Paginate(snapshots: seq<SnapshotInfo>, limit: nat, before: Option<SnapshotId>): Result<Page, PageError> {
    if before.Some? && IndexOf(snapshots, before.value) == |snapshots| then Err(UnknownCursor)
    else Ok(PageFrom(snapshots, if before.Some? then IndexOf(snapshots, before.value) + 1 else 0, limit))
  }

  /** `slice(start, start + limit)` with its cursor. */
  function PageFrom(snapshots: seq<SnapshotInfo>, start: nat, limit: nat): Page
    requires start <= |snapshots|
  {
    var end := if start + limit < |snapshots| then start + limit else |snapshots|;
    var page := snapshots[start..end];
    var hasMore := start + |page| < |snapshots|;
    Page(page, hasMore, if hasMore && page != [] then Some(page[|page| - 1].id) else None)
  }

  /** The entries of `incoming` whose ids are new, first occurrence only, after `current`. */
  function Merged(current: seq<SnapshotInfo>, incoming: seq<SnapshotInfo>): seq<SnapshotInfo> {
    if incoming == [] then current
    else
      var sofar := Merged(current, incoming[..|incoming| - 1]);
      var last := incoming[|incoming| - 1];
      if exists s | s in sofar :: s.id == last.id then sofar else sofar + [last]
  }

  method MergeSnapshotPages(current: seq<SnapshotInfo>, incoming: seq<SnapshotInfo>) returns (snapshots: seq<SnapshotInfo>)
    ensures snapshots == Merged(current, incoming)
  {
    snapshots := current;
    var seen := set s | s in snapshots :: s.id;
    for i := 0 to |incoming|
      invariant snapshots == Merged(current, incoming[..i])
      invariant seen == set s | s in snapshots :: s.id
    {
      var snapshot := incoming[i];
      assert incoming[..i + 1][..i] == incoming[..i];
      if snapshot.id !in seen {
        seen := seen + {snapshot.id};
        snapshots := snapshots + [snapshot];
      }
    }
    assert incoming[..|incoming|] == incoming;
  }

  /** One request of the client: the history the server lists at that moment, and the page size. */
  datatype Fetch = Fetch(listing: seq<SnapshotInfo>, limit: nat)

  datatype Loaded = Complete(snapshots: seq<SnapshotInfo>) | Pending(snapshots: seq<SnapshotInfo>) | Rejected

  /** The client merges each page and follows `nextBefore` until there is none. */
  function Follow(loaded: seq<SnapshotInfo>, before: Option<SnapshotId>, fetches: seq<Fetch>): Loaded
    decreases |fetches|
  {
    if fetches == [] then Pending(loaded)
    else
      match Paginate(fetches[0].listing, fetches[0].limit, before)
      case Err(_) => Rejected
      case Ok(page) =>
        var merged := Merged(loaded, page.snapshots);
        if page.nextBefore.None? then Complete(merged) else Follow(merged, page.nextBefore, fetches[1..])
  }

  ghost predicate EndsWith<T>(s: seq<T>, suffix: seq<T>) {
    |suffix| <= |s| && s[|s| - |suffix|..] == suffix
  }

  /**
   * The first request sees `first`; a later one, holding the cursor of entry `n - 1`, sees that entry and everything
   * older unchanged, behind any snapshots whatsoever.
   */
  ghost predicate GrowsAhead(first: seq<SnapshotInfo>, n: nat, fetches: seq<Fetch>)
    decreases |fetches|
  {
    fetches != [] ==>
      && fetches[0].limit >= 1
      && UniqueIds(fetches[0].listing)
      && n <= |first|
      && (if n == 0 then fetches[0].listing == first
          else EndsWith(fetches[0].listing, first[n - 1..]))
      && GrowsAhead(first, NextStart(first, n, fetches[0].limit), fetches[1..])
  }

  /** Following the cursors from the first page loads the first listing exactly, in at most as many requests as it has entries. */
  lemma FollowingCursorsLoadsTheFirstListing(first: seq<SnapshotInfo>, fetches: seq<Fetch>)
    requires GrowsAhead(first, 0, fetches)
    requires |fetches| >= 1 && |fetches| >= |first|
    ensures Follow([], None, fetches) == Complete(first)
  {
    if first != [] {
      FollowFrom(first, 0, fetches);
      assert first[..0] == [];
    }
  }

  /** Before the last page, what is loaded is exactly the newest part of the first listing. */
  lemma {:induction false} FollowFrom(first: seq<SnapshotInfo>, n: nat, fetches: seq<Fetch>)
    requires n < |first| && UniqueIds(first) && GrowsAhead(first, n, fetches)
    ensures var r := Follow(first[..n], Cursor(first, n), fetches);
            if |fetches| >= |first| - n then r == Complete(first)
            else r == Complete(first) || (r.Pending? && r.snapshots <= first && |r.snapshots| >= n + |fetches|)
    decreases |fetches|
  {
    if fetches != [] {
      var next := NextStart(first, n, fetches[0].limit);
      PageContinues(first, n, fetches[0].listing, fetches[0].limit);
      PageMerges(first, n, next);
      if next < |first| {
        FollowFrom(first, next, fetches[1..]);
      } else {
        assert first[..next] == first;
      }
    }
  }

  function Cursor(first: seq<SnapshotInfo>, n: nat): Option<SnapshotId>
    requires n <= |first|
  {
    if n == 0 then None else Some(first[n - 1].id)
  }

  function NextStart(first: seq<SnapshotInfo>, n: nat, limit: nat): nat {
    if n + limit < |first| then n + limit else |first|
  }

  lemma PageMerges(first: seq<SnapshotInfo>, n: nat, next: nat)
    requires n <= next <= |first| && UniqueIds(first)
    ensures Merged(first[..n], first[n..next]) == first[..next]
  {
    assert first[..n] + first[n..next] == first[..next];
    MergeAppends(first[..n], first[n..next]);
  }

  lemma CursorFound(first: seq<SnapshotInfo>, n: nat, listing: seq<SnapshotInfo>)
    requires 1 <= n <= |first| && UniqueIds(listing) && EndsWith(listing, first[n - 1..])
    ensures IndexOf(listing, first[n - 1].id) == |listing| - |first| + n - 1
    ensures listing[|listing| - |first| + n..] == first[n..]
  {
    var at := |listing| - |first| + n - 1;
    assert listing[at..] == first[n - 1..];
    assert listing[at] == listing[at..][0] && listing[at + 1..] == listing[at..][1..];
  }

  lemma PageContinues(first: seq<SnapshotInfo>, n: nat, listing: seq<SnapshotInfo>, limit: nat)
    requires n < |first| && UniqueIds(first) && UniqueIds(listing) && limit >= 1
    requires if n == 0 then listing == first else EndsWith(listing, first[n - 1..])
    ensures var next := NextStart(first, n, limit);
            Paginate(listing, limit, Cursor(first, n))
            == Ok(Page(first[n..next], next < |first|, if next < |first| then Cursor(first, next) else None))
  {
    if n > 0 {
      CursorFound(first, n, listing);
    } else {
      assert listing[0..] == first[0..];
    }
    PageOfSuffix(first, n, listing, |listing| - |first| + n, limit);
  }

  lemma PageOfSuffix(first: seq<SnapshotInfo>, n: nat, listing: seq<SnapshotInfo>, start: nat, limit: nat)
    requires n < |first| && limit >= 1 && start <= |listing| && listing[start..] == first[n..]
    ensures var next := NextStart(first, n, limit);
            PageFrom(listing, start, limit)
            == Page(first[n..next], next < |first|, if next < |first| then Cursor(first, next) else None)
  {
    var next := NextStart(first, n, limit);
    assert listing[start..start + (next - n)] == listing[start..][..next - n];
    assert first[n..next] == first[n..][..next - n];
    assert |listing| - start == |first| - n;
  }

  lemma {:induction false} MergeAppends(current: seq<SnapshotInfo>, incoming: seq<SnapshotInfo>)
    requires UniqueIds(current + incoming)
    ensures Merged(current, incoming) == current + incoming
  {
    if incoming == [] {
      assert current + incoming == current;
    } else {
      var init, last := incoming[..|incoming| - 1], incoming[|incoming| - 1];
      var all := current + incoming;
      assert all == current + init + [last];
      assert UniqueIds(current + init) by {
        assert forall i | 0 <= i < |current + init| :: (current + init)[i] == all[i];
      }
      MergeAppends(current, init);
      forall s | s in current + init ensures s.id != last.id {
        var i :| 0 <= i < |current + init| && (current + init)[i] == s;
        assert all[i] == s && all[|all| - 1] == last;
      }
    }
  }

  /** A page is refused exactly for a cursor that names no snapshot of the listing. */
  lemma CursorRejectedIff(snapshots: seq<SnapshotInfo>, limit: nat, before: Option<SnapshotId>)
    ensures Paginate(snapshots, limit, before).Err? <==> before.Some? && forall s | s in snapshots :: s.id != before.value
  {
    if before.Some? {
      var i := IndexOf(snapshots, before.value);
      if i < |snapshots| {
        assert snapshots[i] in snapshots;
      }
    }
  }

  // ---- Overlapping pages ----

  /** An entry of the new page, the first of its id, not loaded yet. */
  ghost predicate Appended(current: seq<SnapshotInfo>, incoming: seq<SnapshotInfo>, x: SnapshotInfo) {
    && IndexOf(incoming, x.id) < |incoming| && incoming[IndexOf(incoming, x.id)] == x
    && forall s | s in current :: s.id != x.id
  }

  lemma {:induction false} IndexOfPrefix(init: seq<SnapshotInfo>, last: SnapshotInfo, id: SnapshotId)
    requires IndexOf(init, id) < |init|
    ensures IndexOf(init + [last], id) == IndexOf(init, id)
  {
    if init[0].id != id {
      assert (init + [last])[1..] == init[1..] + [last];
      IndexOfPrefix(init[1..], last, id);
    }
  }

  lemma {:induction false} IndexOfLast(init: seq<SnapshotInfo>, last: SnapshotInfo)
    ensures (forall s | s in init :: s.id != last.id) ==> IndexOf(init + [last], last.id) == |init|
  {
    if init != [] {
      assert (init + [last])[1..] == init[1..] + [last];
      IndexOfLast(init[1..], last);
    }
  }

  /** The appended entries: from the new page, in its order. */
  ghost predicate AppendedInOrder(current: seq<SnapshotInfo>, incoming: seq<SnapshotInfo>, r: seq<SnapshotInfo>) {
    && (forall i | |current| <= i < |r| :: Appended(current, incoming, r[i]))
    && (forall i, j | |current| <= i < j < |r| :: IndexOf(incoming, r[i].id) < IndexOf(incoming, r[j].id))
  }

  lemma AppendedStays(current: seq<SnapshotInfo>, init: seq<SnapshotInfo>, last: SnapshotInfo, r: seq<SnapshotInfo>)
    requires AppendedInOrder(current, init, r)
    ensures AppendedInOrder(current, init + [last], r)
    ensures forall i | |current| <= i < |r| :: IndexOf(init + [last], r[i].id) < |init|
  {
    forall i | |current| <= i < |r|
      ensures IndexOf(init + [last], r[i].id) == IndexOf(init, r[i].id) < |init| && Appended(current, init + [last], r[i])
    {
      IndexOfPrefix(init, last, r[i].id);
    }
  }

  lemma NewIsAppended(current: seq<SnapshotInfo>, init: seq<SnapshotInfo>, last: SnapshotInfo, r: seq<SnapshotInfo>)
    requires AppendedInOrder(current, init, r) && current <= r
    requires forall s | s in init :: exists x :: x in r && x.id == s.id
    requires forall x | x in r :: x.id != last.id
    ensures AppendedInOrder(current, init + [last], r + [last])
  {
    AppendedStays(current, init, last, r);
    IndexOfLast(init, last);
    assert forall s | s in current :: s in r;
  }

  ghost predicate KeepsBoth(current: seq<SnapshotInfo>, incoming: seq<SnapshotInfo>, r: seq<SnapshotInfo>) {
    && current <= r && UniqueIds(r) && AppendedInOrder(current, incoming, r)
    && (forall s | s in incoming :: exists x :: x in r && x.id == s.id)
  }

  lemma KnownIsSkipped(current: seq<SnapshotInfo>, init: seq<SnapshotInfo>, last: SnapshotInfo, r: seq<SnapshotInfo>)
    requires KeepsBoth(current, init, r) && exists s :: s in r && s.id == last.id
    ensures KeepsBoth(current, init + [last], r)
  {
    AppendedStays(current, init, last, r);
  }

  lemma UnknownIsAppended(current: seq<SnapshotInfo>, init: seq<SnapshotInfo>, last: SnapshotInfo, r: seq<SnapshotInfo>)
    requires KeepsBoth(current, init, r) && forall s | s in r :: s.id != last.id
    ensures KeepsBoth(current, init + [last], r + [last])
  {
    NewIsAppended(current, init, last, r);
    forall s | s in init + [last] ensures exists x :: x in r + [last] && x.id == s.id {
      if s in init {
        var x :| x in r && x.id == s.id;
        assert x in r + [last];
      } else {
        assert last in r + [last];
      }
    }
    assert forall i | 0 <= i < |r| :: r[i] in r;
  }

  /**
   * Whatever pages overlap, merging keeps what was loaded as it is, loses no id, repeats none, and appends only entries of
   * the new page: each one the first of its id there, in the order of that page.
   */
  lemma {:induction false} MergedKeepsBoth(current: seq<SnapshotInfo>, incoming: seq<SnapshotInfo>)
    requires UniqueIds(current)
    ensures KeepsBoth(current, incoming, Merged(current, incoming))
  {
    if incoming != [] {
      var init, last := incoming[..|incoming| - 1], incoming[|incoming| - 1];
      assert incoming == init + [last];
      MergedKeepsBoth(current, init);
      var r := Merged(current, init);
      if exists s | s in r :: s.id == last.id {
        KnownIsSkipped(current, init, last, r);
      } else {
        UnknownIsAppended(current, init, last, r);
      }
    }
  }
}
