/** Snapshots of a repository and their recency order (`ResticClient.ts`, the history sort of `SyncService.ts`). */
module Snapshots {
  import opened JsStrings
  import opened Sorting
  import opened Model

  /** One entry of the snapshot folder; `data` is `None` when the file does not hold a flat JSON object of scalars, or has an empty key. */
  datatype SnapshotFile = SnapshotFile(fileName: JsString, isFile: bool, data: Option<Data>)

  /** `time` is the parsed instant, `None` when missing or unparsable. */
  datatype Snapshot = Snapshot(id: SnapshotId, time: Option<int>, files: seq<SnapshotFile>)

  function CompareIds(a: SnapshotId, b: SnapshotId): int {
    if Less(a, b) then -1 else if Less(b, a) then 1 else 0
  }

  function CompareSnapshots(a: Snapshot, b: Snapshot): int {
    if a.time.None? && b.time.None? then CompareIds(a.id, b.id)
    else if a.time.None? then -1
    else if b.time.None? then 1
    else if a.time != b.time then (if a.time.value < b.time.value then -1 else 1)
    else CompareIds(a.id, b.id)
  }

  function LatestSnapshot(snapshots: seq<Snapshot>): (r: Option<Snapshot>)
    ensures r.None? <==> snapshots == []
  {
    if snapshots == [] then None
    else
      var current := snapshots[|snapshots| - 1];
      match LatestSnapshot(snapshots[..|snapshots| - 1])
      case None => Some(current)
      case Some(latest) => Some(if CompareSnapshots(current, latest) > 0 then current else latest)
  }

  /** The comparator of the history sort: most recent first. */
  predicate NewerFirst(a: Snapshot, b: Snapshot) {
    CompareSnapshots(b, a) < 0
  }

  function SortedHistory(snapshots: seq<Snapshot>): seq<Snapshot> {
    Sort(NewerFirst, snapshots)
  }

  ghost predicate UniqueIds(s: seq<Snapshot>) {
    forall i, j | 0 <= i < j < |s| :: s[i].id != s[j].id
  }

  lemma CompareIsAntisymmetric(a: Snapshot, b: Snapshot)
    ensures CompareSnapshots(a, b) < 0 <==> CompareSnapshots(b, a) > 0
    ensures CompareSnapshots(a, b) == 0 ==> a.id == b.id
  {
    LessIsAsymmetric(a.id, b.id);
    LessIsConnected(a.id, b.id);
  }

  lemma CompareIsTransitive(a: Snapshot, b: Snapshot, c: Snapshot)
    requires CompareSnapshots(a, b) < 0 && CompareSnapshots(b, c) < 0
    ensures CompareSnapshots(a, c) < 0
  {
    if Less(a.id, b.id) && Less(b.id, c.id) {
      LessIsTransitive(a.id, b.id, c.id);
    }
  }

  /** Recency is a strict total order on snapshots with distinct ids, whatever their times. */
  lemma RecencyIsStrictTotalOrder(s: seq<Snapshot>)
    requires UniqueIds(s)
    ensures StrictTotalOn(NewerFirst, s)
  {
    forall x, y | x in s && y in s
      ensures !(NewerFirst(x, y) && NewerFirst(y, x))
      ensures x == y || NewerFirst(x, y) || NewerFirst(y, x)
    {
      CompareIsAntisymmetric(x, y);
    }
    forall x, y, z | x in s && y in s && z in s && NewerFirst(x, y) && NewerFirst(y, z)
      ensures NewerFirst(x, z)
    {
      CompareIsTransitive(z, y, x);
    }
  }

  /** The reduce finds the one snapshot that every other one is older than. */
  lemma {:induction false} LatestIsMaximum(s: seq<Snapshot>)
    requires UniqueIds(s) && s != []
    ensures LatestSnapshot(s).value in s
    ensures forall x | x in s && x != LatestSnapshot(s).value :: CompareSnapshots(x, LatestSnapshot(s).value) < 0
  {
    var init, current := s[..|s| - 1], s[|s| - 1];
    if init != [] {
      LatestIsMaximum(init);
      var latest := LatestSnapshot(init).value;
      CompareIsAntisymmetric(current, latest);
      var i :| 0 <= i < |init| && init[i] == latest;
      assert s[i].id != current.id;
      forall x | x in s && x != LatestSnapshot(s).value ensures CompareSnapshots(x, LatestSnapshot(s).value) < 0 {
        if x in init && CompareSnapshots(current, latest) > 0 && x != latest {
          CompareIsTransitive(x, latest, current);
        }
      }
    }
  }

  /** Listed, and more recent than every other one listed. */
  ghost predicate IsNewest(m: Snapshot, s: seq<Snapshot>) {
    m in s && forall x | x in s && x != m :: CompareSnapshots(x, m) < 0
  }

  lemma MaximumIsUnique(s: seq<Snapshot>, m: Snapshot)
    requires UniqueIds(s) && IsNewest(m, s)
    ensures LatestSnapshot(s) == Some(m)
  {
    LatestIsMaximum(s);
    CompareIsAntisymmetric(m, LatestSnapshot(s).value);
  }

  /** The latest snapshot does not depend on the order of the listing. */
  lemma LatestForgetsListingOrder(a: seq<Snapshot>, b: seq<Snapshot>)
    requires UniqueIds(a) && UniqueIds(b) && multiset(a) == multiset(b)
    ensures LatestSnapshot(a) == LatestSnapshot(b)
  {
    SameElements(a, b);
    if a != [] {
      LatestIsMaximum(a);
      MaximumIsUnique(b, LatestSnapshot(a).value);
    }
  }

  /** The first row of the sorted history is the latest snapshot. */
  lemma LatestHeadsHistory(s: seq<Snapshot>)
    requires UniqueIds(s) && s != []
    ensures LatestSnapshot(s) == Some(SortedHistory(s)[0])
  {
    var h := SortedHistory(s);
    RecencyIsStrictTotalOrder(s);
    SortIsSorted(NewerFirst, s);
    SameElements(s, h);
    SubsetIsTotal(NewerFirst, s, h);
    forall x | x in s && x != h[0] ensures CompareSnapshots(x, h[0]) < 0 {
      SortedHeadIsLeast(NewerFirst, h, x);
    }
    assert h[0] in h;
    MaximumIsUnique(s, h[0]);
  }

  /** The history lists every snapshot once, each one more recent than all those after it. */
  lemma HistoryIsNewestFirst(s: seq<Snapshot>)
    requires UniqueIds(s)
    ensures multiset(SortedHistory(s)) == multiset(s)
    ensures forall i, j | 0 <= i < j < |s| :: CompareSnapshots(SortedHistory(s)[i], SortedHistory(s)[j]) > 0
  {
    var h := SortedHistory(s);
    RecencyIsStrictTotalOrder(s);
    SortIsSorted(NewerFirst, s);
    SameElements(s, h);
    HistoryIdsAreUnique(s);
    forall i, j | 0 <= i < j < |h| ensures CompareSnapshots(h[i], h[j]) > 0 {
      assert h[i] in h && h[j] in h && !NewerFirst(h[j], h[i]);
      CompareIsAntisymmetric(h[i], h[j]);
    }
  }

  lemma HistoryIdsAreUnique(s: seq<Snapshot>)
    requires UniqueIds(s)
    ensures UniqueIds(SortedHistory(s))
  {
    var h := SortedHistory(s);
    SameElements(s, h);
    forall i, j | 0 <= i < j < |h| ensures h[i].id != h[j].id {
      if h[i].id == h[j].id {
        assert h[i] in s && h[j] in s;
        assert h == h[..j] + [h[j]] + h[j + 1..] && h[i] in h[..j];
        assert multiset(s)[h[j]] >= 2;
        ListedOnce(s, h[j]);
      }
    }
  }

  lemma {:induction false} ListedOnce(s: seq<Snapshot>, x: Snapshot)
    requires UniqueIds(s)
    ensures multiset(s)[x] <= 1
  {
    if s != [] {
      var init, last := s[..|s| - 1], s[|s| - 1];
      assert s == init + [last];
      ListedOnce(init, x);
      assert last !in init;
    }
  }

  /** A snapshot is newer when its instant is later; a missing instant is older than any; equal instants go by id. */
  lemma NewerIff(a: Snapshot, b: Snapshot)
    ensures CompareSnapshots(a, b) > 0 <==>
              || (a.time.Some? && b.time.None?)
              || (a.time.Some? && b.time.Some? && a.time.value > b.time.value)
              || (a.time == b.time && Less(b.id, a.id))
  {
    LessIsAsymmetric(a.id, b.id);
  }
}
