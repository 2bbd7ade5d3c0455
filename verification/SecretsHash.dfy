/** The content hashes and the local-changes flag (`SecretsHash.ts`). */
module SecretsHash {
  import opened JsStrings
  import opened Sorting
  import opened Model

  /** Every secret with its keys sorted, in list order. */
  function KeysSorted(list: seq<Secret>): (r: seq<Entry<Data>>)
    ensures |r| == |list|
    ensures forall i | 0 <= i < |r| :: r[i] == Entry(list[i].name, SortByKey(list[i].data))
  {
    seq(|list|, i requires 0 <= i < |list| => Entry(list[i].name, SortByKey(list[i].data)))
  }

  function ComputeSecretsHash(list: seq<Secret>): Digest {
    Sha256(SortByKey(KeysSorted(list)))
  }

  /** The hash used before keys were sorted: sensitive to the insertion order of the keys. */
  function ComputeSecretsHashLegacy(list: seq<Secret>): Digest {
    Sha256(SortByKey(Named(list)))
  }

  /** The canonical hash identifies the content: equal exactly for equal name-to-key-to-value maps. */
  lemma HashIdentifiesContent(a: seq<Secret>, b: seq<Secret>)
    requires WellFormed(a) && WellFormed(b)
    ensures ComputeSecretsHash(a) == ComputeSecretsHash(b) <==> ContentOf(a) == ContentOf(b)
  {
    SortedMapMatchesContent(a);
    SortedMapMatchesContent(b);
    SortedEntriesDetermineMap(KeysSorted(a), KeysSorted(b));
    SortedMapIdentifiesContent(a, b);
  }

  lemma SortedMapIdentifiesContent(a: seq<Secret>, b: seq<Secret>)
    requires WellFormed(a) && WellFormed(b)
    requires UniqueKeys(KeysSorted(a)) && UniqueKeys(KeysSorted(b))
    ensures MapOf(KeysSorted(a)) == MapOf(KeysSorted(b)) <==> ContentOf(a) == ContentOf(b)
  {
    SortedMapMatchesContent(a);
    SortedMapMatchesContent(b);
    if ContentOf(a).Keys == ContentOf(b).Keys {
      forall n | n in ContentOf(a)
        ensures MapOf(KeysSorted(a))[n] == MapOf(KeysSorted(b))[n] <==> ContentOf(a)[n] == ContentOf(b)[n]
      {
        NameAgrees(a, b, n);
      }
      SameOnEveryKey(MapOf(KeysSorted(a)), MapOf(KeysSorted(b)), ContentOf(a), ContentOf(b));
    }
  }

  lemma SameOnEveryKey<K, V, W>(x: map<K, V>, y: map<K, V>, c: map<K, W>, d: map<K, W>)
    requires x.Keys == y.Keys == c.Keys == d.Keys
    requires forall n | n in c :: x[n] == y[n] <==> c[n] == d[n]
    ensures x == y <==> c == d
  {
    if x == y {
      assert forall n | n in c :: n in x && c[n] == d[n];
    }
    if c == d {
      assert forall n | n in x :: n in c && x[n] == y[n];
    }
  }

  lemma NameAgrees(a: seq<Secret>, b: seq<Secret>, n: JsString)
    requires WellFormed(a) && WellFormed(b) && n in ContentOf(a) && n in ContentOf(b)
    requires UniqueKeys(KeysSorted(a)) && UniqueKeys(KeysSorted(b))
    ensures n in MapOf(KeysSorted(a)) && n in MapOf(KeysSorted(b))
    ensures MapOf(KeysSorted(a))[n] == MapOf(KeysSorted(b))[n] <==> ContentOf(a)[n] == ContentOf(b)[n]
  {
    var s := ContentComesFrom(a, n);
    var t := ContentComesFrom(b, n);
    SortedMapHas(a, s);
    SortedMapHas(b, t);
    SortedEntriesDetermineMap(s.data, t.data);
  }

  lemma SortedMapHas(list: seq<Secret>, s: Secret)
    requires WellFormed(list) && UniqueKeys(KeysSorted(list)) && s in list
    ensures s.name in MapOf(KeysSorted(list)) && MapOf(KeysSorted(list))[s.name] == SortByKey(s.data)
  {
    var i :| 0 <= i < |list| && list[i] == s;
    assert KeysSorted(list)[i] in KeysSorted(list);
  }

  lemma SortedMapMatchesContent(list: seq<Secret>)
    requires WellFormed(list)
    ensures UniqueKeys(KeysSorted(list))
    ensures MapOf(KeysSorted(list)).Keys == ContentOf(list).Keys
  {
    var x := KeysSorted(list);
    forall n ensures n in MapOf(x) <==> n in ContentOf(list) {
      if n in MapOf(x) {
        var i :| 0 <= i < |x| && x[i] == Entry(n, MapOf(x)[n]);
        ContentHas(list, list[i]);
      }
      if n in ContentOf(list) {
        var s := ContentComesFrom(list, n);
        SortedMapHas(list, s);
      }
    }
  }

  predicate ComputeHasLocalChanges(project: Project, secretCount: nat) {
    if project.lastSyncSnapshotId.None? then secretCount > 0
    else if project.lastSyncContentHash.None? then false
    else if project.currentContentHash.None? then true
    else project.lastSyncContentHash != project.currentContentHash
  }
}
