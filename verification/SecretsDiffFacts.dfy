/** The difference is exact: empty only for equal contents, and its own mirror image when the sides are swapped. */
module SecretsDiffFacts {
  import opened JsStrings
  import opened Sorting
  import opened Model
  import opened Difference

  /** The difference is empty exactly when the two contents are equal. */
  lemma EmptyDiffMeansEqualContent(before: Content, after: Content)
    ensures DiffOf(before, after) == [] <==> before == after
  {
    var changes := SecretChanges(before, after);
    if DiffOf(before, after) == [] {
      forall n | n in before.Keys + after.Keys ensures n in before && n in after && before[n] == after[n] {
        assert n !in changes;
      }
    }
    if before == after {
      EntriesDetermineMap([], changes);
      ListingIsUnique([], DiffOf(before, after), changes);
    }
  }

  // ---- Swapping the sides ----

  function MirrorKey(c: KeyChange): KeyChange {
    match c
    case KeyAdded(n) => KeyRemoved(n)
    case KeyRemoved(n) => KeyAdded(n)
    case KeyChanged(b, a) => KeyChanged(a, b)
  }

  function MirrorStatus(s: Status): Status {
    match s
    case Added => Removed
    case Removed => Added
    case Changed => Changed
  }

  function MirrorSecret(c: SecretChange): SecretChange {
    SecretChange(MirrorStatus(c.status), MapValues(c.keys, MirrorKey))
  }

  function MapValues<V, W>(s: seq<Entry<V>>, g: V -> W): (r: seq<Entry<W>>)
    ensures |r| == |s|
    ensures forall i | 0 <= i < |r| :: r[i] == Entry(s[i].key, g(s[i].value))
  {
    seq(|s|, i requires 0 <= i < |s| => Entry(s[i].key, g(s[i].value)))
  }

  lemma MapValuesIsListing<V(!new), W(!new)>(s: seq<Entry<V>>, m: map<JsString, V>, g: V -> W, n: map<JsString, W>)
    requires IsListing(s, m)
    requires n.Keys == m.Keys && forall k | k in m :: n[k] == g(m[k])
    ensures MapValues(s, g) == Listed(n)
  {
    var r := MapValues(s, g);
    forall e ensures e in r <==> e.key in n && n[e.key] == e.value {
      if e in r {
        var i :| 0 <= i < |r| && r[i] == e;
        assert s[i] in s;
      }
      if e.key in n && n[e.key] == e.value {
        assert Entry(e.key, m[e.key]) in s;
        var i :| 0 <= i < |s| && s[i] == Entry(e.key, m[e.key]);
        assert r[i] == e;
      }
    }
    EntriesDetermineMap(r, n);
    forall i, j | 0 <= i < j < |r| ensures !KeyBefore(r[j], r[i]) {
      assert !KeyBefore(s[j], s[i]);
    }
    ListingIsUnique(r, Listed(n), n);
  }

  lemma KeyChangesMirror(before: Values, after: Values)
    ensures Listed(KeyChanges(after, before)) == MapValues(Listed(KeyChanges(before, after)), MirrorKey)
  {
    MapValuesIsListing(Listed(KeyChanges(before, after)), KeyChanges(before, after), MirrorKey, KeyChanges(after, before));
  }

  /** Swapping the two sides swaps added with removed, and the lengths before with those after, entry by entry. */
  lemma SwappingSidesMirrorsTheDiff(before: Content, after: Content)
    ensures DiffOf(after, before) == MapValues(DiffOf(before, after), MirrorSecret)
  {
    var m, n := SecretChanges(before, after), SecretChanges(after, before);
    assert n.Keys == m.Keys;
    forall k | k in m ensures n[k] == MirrorSecret(m[k]) {
      KeyChangesMirror(if k in before then before[k] else map[], if k in after then after[k] else map[]);
    }
    MapValuesIsListing(DiffOf(before, after), m, MirrorSecret, n);
  }

  lemma {:induction false} TotalOfMapped<V(!new), W>(s: seq<Entry<V>>, g: V -> W, f: Entry<W> -> nat, h: Entry<V> -> nat)
    requires forall x: Entry<V> | x in s :: f(Entry(x.key, g(x.value))) == h(x)
    ensures Total(MapValues(s, g), f) == Total(s, h)
  {
    if s != [] {
      var init := s[..|s| - 1];
      assert s[|s| - 1] in s && forall x | x in init :: x in s;
      TotalOfMapped(init, g, f, h);
      assert MapValues(s, g)[..|s| - 1] == MapValues(init, g);
    }
  }

  lemma MirroredKeyTotals(keys: seq<Entry<KeyChange>>)
    ensures Total(MapValues(keys, MirrorKey), AddedKey) == Total(keys, RemovedKey)
    ensures Total(MapValues(keys, MirrorKey), RemovedKey) == Total(keys, AddedKey)
    ensures Total(MapValues(keys, MirrorKey), ChangedKey) == Total(keys, ChangedKey)
  {
    TotalOfMapped(keys, MirrorKey, AddedKey, RemovedKey);
    TotalOfMapped(keys, MirrorKey, RemovedKey, AddedKey);
    TotalOfMapped(keys, MirrorKey, ChangedKey, ChangedKey);
  }

  lemma MirroredSecretTotals(diff: seq<Entry<SecretChange>>)
    ensures Total(MapValues(diff, MirrorSecret), AddedSecret) == Total(diff, RemovedSecret)
    ensures Total(MapValues(diff, MirrorSecret), ChangedSecret) == Total(diff, ChangedSecret)
  {
    TotalOfMapped(diff, MirrorSecret, AddedSecret, RemovedSecret);
    TotalOfMapped(diff, MirrorSecret, ChangedSecret, ChangedSecret);
  }

  lemma MirroredKeysInTotals(diff: seq<Entry<SecretChange>>)
    ensures Total(MapValues(diff, MirrorSecret), KeysAddedIn) == Total(diff, KeysRemovedIn)
    ensures Total(MapValues(diff, MirrorSecret), KeysChangedIn) == Total(diff, KeysChangedIn)
  {
    forall x: Entry<SecretChange> | x in diff
      ensures KeysAddedIn(Entry(x.key, MirrorSecret(x.value))) == KeysRemovedIn(x)
      ensures KeysChangedIn(Entry(x.key, MirrorSecret(x.value))) == KeysChangedIn(x)
    {
      MirroredKeyTotals(x.value.keys);
    }
    TotalOfMapped(diff, MirrorSecret, KeysAddedIn, KeysRemovedIn);
    TotalOfMapped(diff, MirrorSecret, KeysChangedIn, KeysChangedIn);
  }

  /** Swapping the two sides swaps the counters of added and removed secrets and keys. */
  lemma SwappingSidesSwapsTheCounters(before: Content, after: Content)
    ensures Total(DiffOf(after, before), AddedSecret) == Total(DiffOf(before, after), RemovedSecret)
    ensures Total(DiffOf(after, before), ChangedSecret) == Total(DiffOf(before, after), ChangedSecret)
    ensures Total(DiffOf(after, before), KeysAddedIn) == Total(DiffOf(before, after), KeysRemovedIn)
    ensures Total(DiffOf(after, before), KeysChangedIn) == Total(DiffOf(before, after), KeysChangedIn)
  {
    SwappingSidesMirrorsTheDiff(before, after);
    MirroredSecretTotals(DiffOf(before, after));
    MirroredKeysInTotals(DiffOf(before, after));
  }
}
