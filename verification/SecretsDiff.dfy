/** The algorithm of the structural difference between two lists of secrets (`SecretsDiff.ts`). */
module SecretsDiff {
  import opened JsStrings
  import opened Sorting
  import opened Model
  import opened Difference

  class DiffSummary {
    var secretsAdded: nat
    var secretsRemoved: nat
    var secretsChanged: nat
    var keysAdded: nat
    var keysRemoved: nat
    var keysChanged: nat

    constructor ()
      ensures secretsAdded == secretsRemoved == secretsChanged == keysAdded == keysRemoved == keysChanged == 0
    {
      secretsAdded, secretsRemoved, secretsChanged := 0, 0, 0;
      keysAdded, keysRemoved, keysChanged := 0, 0, 0;
    }

    /** Every counter is the number of listed entries of its kind. */
    ghost predicate Counts(secrets: seq<Entry<SecretChange>>)
      reads this
    {
      && secretsAdded == Total(secrets, AddedSecret)
      && secretsRemoved == Total(secrets, RemovedSecret)
      && secretsChanged == Total(secrets, ChangedSecret)
      && keysAdded == Total(secrets, KeysAddedIn)
      && keysRemoved == Total(secrets, KeysRemovedIn)
      && keysChanged == Total(secrets, KeysChangedIn)
    }
  }

  // ---- The algorithm ----

  function Lookup<V>(s: seq<Entry<V>>, key: JsString): (r: Option<V>)
    ensures r.Some? ==> Entry(key, r.value) in s
    ensures r.None? ==> forall e | e in s :: e.key != key
  {
    if s == [] then None else if s[0].key == key then Some(s[0].value) else Lookup(s[1..], key)
  }

  lemma LookupReadsMap<V>(s: seq<Entry<V>>, key: JsString)
    requires UniqueKeys(s)
    ensures Lookup(s, key) == if key in MapOf(s) then Some(MapOf(s)[key]) else None
  {
    if key in MapOf(s) {
      assert Entry(key, MapOf(s)[key]) in s;
    }
  }

  /** The entries for which `f` gives something, under the same key and in the same order. */
  ghost function FilterMap<V, W>(s: seq<Entry<V>>, f: Entry<V> -> Option<W>): seq<Entry<W>> {
    if s == [] then []
    else
      var x := s[|s| - 1];
      FilterMap(s[..|s| - 1], f) + (if f(x).Some? then [Entry(x.key, f(x).value)] else [])
  }

  lemma FilterMapAppend<V, W>(s: seq<Entry<V>>, x: Entry<V>, f: Entry<V> -> Option<W>)
    ensures FilterMap(s + [x], f) == FilterMap(s, f) + (if f(x).Some? then [Entry(x.key, f(x).value)] else [])
  {
    assert (s + [x])[..|s|] == s;
  }

  lemma {:induction false} FilterMapHolds<V(!new), W(!new)>(s: seq<Entry<V>>, f: Entry<V> -> Option<W>)
    requires UniqueKeys(s)
    ensures UniqueKeys(FilterMap(s, f))
    ensures forall y :: y in FilterMap(s, f) <==> exists x :: x in s && x.key == y.key && f(x) == Some(y.value)
  {
    if s != [] {
      var init, x := s[..|s| - 1], s[|s| - 1];
      assert s == init + [x];
      FilterMapHolds(init, f);
      var r := FilterMap(init, f);
      forall i | 0 <= i < |r| ensures r[i].key != x.key {
        assert r[i] in r;
        var e :| e in init && e.key == r[i].key && f(e) == Some(r[i].value);
        var j :| 0 <= j < |init| && init[j] == e;
      }
      forall y ensures y in FilterMap(s, f) <==> exists e :: e in s && e.key == y.key && f(e) == Some(y.value) {
        if y in FilterMap(s, f) && y !in r {
          assert x in s;
        }
        if y in r {
          var e :| e in init && e.key == y.key && f(e) == Some(y.value);
          assert e in s;
        }
      }
    }
  }

  // ---- Keys ----

  ghost function AfterChange(before: Data, e: Entry<JsString>): Option<KeyChange> {
    match Lookup(before, e.key)
    case None => Some(KeyAdded(|e.value|))
    case Some(was) => if was != e.value then Some(KeyChanged(|was|, |e.value|)) else None
  }

  ghost function BeforeChange(after: Data, e: Entry<JsString>): Option<KeyChange> {
    match Lookup(after, e.key)
    case None => Some(KeyRemoved(|e.value|))
    case Some(_) => None
  }

  /** What the loop over the keys of `after` collects. */
  ghost function FromAfter(before: Data, entries: Data): seq<Entry<KeyChange>> {
    FilterMap(entries, e => AfterChange(before, e))
  }

  /** What the loop over the keys of `before` collects. */
  ghost function FromBefore(after: Data, entries: Data): seq<Entry<KeyChange>> {
    FilterMap(entries, e => BeforeChange(after, e))
  }

  lemma FromAfterHolds(before: Data, after: Data)
    requires UniqueKeys(before) && UniqueKeys(after)
    ensures var changes := KeyChanges(MapOf(before), MapOf(after));
            UniqueKeys(FromAfter(before, SortByKey(after)))
            && forall c :: c in FromAfter(before, SortByKey(after)) <==> c.key in MapOf(after) && c.key in changes && changes[c.key] == c.value
  {
    var changes := KeyChanges(MapOf(before), MapOf(after));
    SortIsListing(after);
    FilterMapHolds(SortByKey(after), e => AfterChange(before, e));
    forall c: Entry<KeyChange>
      ensures c in FromAfter(before, SortByKey(after)) <==> c.key in MapOf(after) && c.key in changes && changes[c.key] == c.value
    {
      LookupReadsMap(before, c.key);
      InListing(SortByKey(after), MapOf(after), c.key);
    }
  }

  lemma FromBeforeHolds(before: Data, after: Data)
    requires UniqueKeys(before) && UniqueKeys(after)
    ensures var changes := KeyChanges(MapOf(before), MapOf(after));
            UniqueKeys(FromBefore(after, SortByKey(before)))
            && forall c :: c in FromBefore(after, SortByKey(before)) <==> c.key !in MapOf(after) && c.key in changes && changes[c.key] == c.value
  {
    var changes := KeyChanges(MapOf(before), MapOf(after));
    SortIsListing(before);
    FilterMapHolds(SortByKey(before), e => BeforeChange(after, e));
    forall c: Entry<KeyChange>
      ensures c in FromBefore(after, SortByKey(before)) <==> c.key !in MapOf(after) && c.key in changes && changes[c.key] == c.value
    {
      LookupReadsMap(after, c.key);
      InListing(SortByKey(before), MapOf(before), c.key);
    }
  }

  /** Everything the two loops collect, once sorted, is the listing of the changes. */
  lemma CollectedKeysAreTheChanges(before: Data, after: Data)
    requires UniqueKeys(before) && UniqueKeys(after)
    ensures SortByKey(FromAfter(before, SortByKey(after)) + FromBefore(after, SortByKey(before)))
         == Listed(KeyChanges(MapOf(before), MapOf(after)))
  {
    FromAfterHolds(before, after);
    FromBeforeHolds(before, after);
    ChangesSplit(FromAfter(before, SortByKey(after)), FromBefore(after, SortByKey(before)),
                 FromAfter(before, SortByKey(after)) + FromBefore(after, SortByKey(before)),
                 KeyChanges(MapOf(before), MapOf(after)), MapOf(after).Keys);
  }

  lemma InListing<V(!new)>(s: seq<Entry<V>>, m: map<JsString, V>, k: JsString)
    requires IsListing(s, m)
    ensures forall e: Entry<V> | e.key == k :: e in s <==> k in m && m[k] == e.value
    ensures k in m <==> exists e :: e in s && e.key == k
  {
    if k in m {
      assert Entry(k, m[k]) in s;
    }
  }

  lemma ChangesSplit<V(!new)>(x: seq<Entry<V>>, y: seq<Entry<V>>, keys: seq<Entry<V>>, changes: map<JsString, V>, left: set<JsString>)
    requires UniqueKeys(x) && UniqueKeys(y) && keys == x + y
    requires forall c :: c in x <==> c.key in left && c.key in changes && changes[c.key] == c.value
    requires forall c :: c in y <==> c.key !in left && c.key in changes && changes[c.key] == c.value
    ensures UniqueKeys(keys) && SortByKey(keys) == Listed(changes)
  {
    forall i, j | 0 <= i < j < |keys| ensures keys[i].key != keys[j].key {
      if i < |x| <= j {
        assert keys[i] == x[i] && x[i] in x && keys[j] == y[j - |x|] && y[j - |x|] in y;
      }
    }
    EntriesDetermineMap(keys, changes);
    SortIsListing(keys);
    ListingIsUnique(SortByKey(keys), Listed(changes), changes);
  }

  /** Appends one key entry and counts it. */
  method PushKey(keys: seq<Entry<KeyChange>>, x: Entry<KeyChange>, summary: DiffSummary) returns (r: seq<Entry<KeyChange>>)
    modifies summary
    ensures r == keys + [x]
    ensures KeysCounted(summary, old(summary.keysAdded), old(summary.keysRemoved), old(summary.keysChanged), [x])
    ensures unchanged(summary`secretsAdded, summary`secretsRemoved, summary`secretsChanged)
  {
    assert [x] == [] + [x];
    TotalsAppend([], x);
    match x.value {
      case KeyAdded(_) => summary.keysAdded := summary.keysAdded + 1;
      case KeyRemoved(_) => summary.keysRemoved := summary.keysRemoved + 1;
      case KeyChanged(_, _) => summary.keysChanged := summary.keysChanged + 1;
    }
    r := keys + [x];
  }

  /** The key counters grew from these values by the entries of `keys`. */
  ghost predicate KeysCounted(summary: DiffSummary, added: nat, removed: nat, changed: nat, keys: seq<Entry<KeyChange>>)
    reads summary
  {
    && summary.keysAdded == added + Total(keys, AddedKey)
    && summary.keysRemoved == removed + Total(keys, RemovedKey)
    && summary.keysChanged == changed + Total(keys, ChangedKey)
  }

  method DiffSecretKeys(before: Data, after: Data, summary: DiffSummary) returns (keys: seq<Entry<KeyChange>>)
    requires UniqueKeys(before) && UniqueKeys(after)
    modifies summary
    ensures ListsKeys(keys, MapOf(before), MapOf(after))
    ensures keys == Listed(KeyChanges(MapOf(before), MapOf(after)))
    ensures KeysCounted(summary, old(summary.keysAdded), old(summary.keysRemoved), old(summary.keysChanged), keys)
    ensures unchanged(summary`secretsAdded, summary`secretsRemoved, summary`secretsChanged)
  {
    keys := [];
    var entries := SortByKey(after);
    for i := 0 to |entries|
      invariant keys == FromAfter(before, entries[..i])
      invariant KeysCounted(summary, old(summary.keysAdded), old(summary.keysRemoved), old(summary.keysChanged), keys)
      invariant unchanged(summary`secretsAdded, summary`secretsRemoved, summary`secretsChanged)
    {
      FromAfterStep(before, entries, i);
      var key, value := entries[i].key, entries[i].value;
      var was := Lookup(before, key);
      if was.None? {
        TotalsAppend(keys, Entry(key, KeyAdded(|value|)));
        keys := PushKey(keys, Entry(key, KeyAdded(|value|)), summary);
      } else if was.value != value {
        TotalsAppend(keys, Entry(key, KeyChanged(|was.value|, |value|)));
        keys := PushKey(keys, Entry(key, KeyChanged(|was.value|, |value|)), summary);
      }
    }
    assert entries[..|entries|] == entries;
    var removed := DiffRemovedKeys(before, after, summary);
    TotalsConcat(keys, removed);
    keys := keys + removed;
    CollectedKeysAreTheChanges(before, after);
    TotalsSort(keys);
    keys := SortByKey(keys);
    KeysAreListed(keys, MapOf(before), MapOf(after));
  }

  /** The second loop of the key comparison: keys that `after` no longer has. */
  method DiffRemovedKeys(before: Data, after: Data, summary: DiffSummary) returns (keys: seq<Entry<KeyChange>>)
    modifies summary
    ensures keys == FromBefore(after, SortByKey(before))
    ensures KeysCounted(summary, old(summary.keysAdded), old(summary.keysRemoved), old(summary.keysChanged), keys)
    ensures unchanged(summary`secretsAdded, summary`secretsRemoved, summary`secretsChanged)
  {
    keys := [];
    var entries := SortByKey(before);
    for i := 0 to |entries|
      invariant keys == FromBefore(after, entries[..i])
      invariant KeysCounted(summary, old(summary.keysAdded), old(summary.keysRemoved), old(summary.keysChanged), keys)
      invariant unchanged(summary`secretsAdded, summary`secretsRemoved, summary`secretsChanged)
    {
      FromBeforeStep(after, entries, i);
      var key, value := entries[i].key, entries[i].value;
      if Lookup(after, key).None? {
        TotalsAppend(keys, Entry(key, KeyRemoved(|value|)));
        keys := PushKey(keys, Entry(key, KeyRemoved(|value|)), summary);
      }
    }
    assert entries[..|entries|] == entries;
  }

  lemma FromAfterStep(before: Data, entries: Data, i: nat)
    requires i < |entries|
    ensures var c := AfterChange(before, entries[i]);
            FromAfter(before, entries[..i + 1])
            == FromAfter(before, entries[..i]) + (if c.Some? then [Entry(entries[i].key, c.value)] else [])
  {
    assert entries[..i + 1] == entries[..i] + [entries[i]];
    FilterMapAppend(entries[..i], entries[i], e => AfterChange(before, e));
  }

  lemma FromBeforeStep(after: Data, entries: Data, i: nat)
    requires i < |entries|
    ensures var c := BeforeChange(after, entries[i]);
            FromBefore(after, entries[..i + 1])
            == FromBefore(after, entries[..i]) + (if c.Some? then [Entry(entries[i].key, c.value)] else [])
  {
    assert entries[..i + 1] == entries[..i] + [entries[i]];
    FilterMapAppend(entries[..i], entries[i], e => BeforeChange(after, e));
  }

  lemma TotalsConcat(keys: seq<Entry<KeyChange>>, more: seq<Entry<KeyChange>>)
    ensures Total(keys + more, AddedKey) == Total(keys, AddedKey) + Total(more, AddedKey)
    ensures Total(keys + more, RemovedKey) == Total(keys, RemovedKey) + Total(more, RemovedKey)
    ensures Total(keys + more, ChangedKey) == Total(keys, ChangedKey) + Total(more, ChangedKey)
  {
    TotalConcat(keys, more, AddedKey);
    TotalConcat(keys, more, RemovedKey);
    TotalConcat(keys, more, ChangedKey);
  }

  lemma TotalsAppend(keys: seq<Entry<KeyChange>>, x: Entry<KeyChange>)
    ensures Total(keys + [x], AddedKey) == Total(keys, AddedKey) + AddedKey(x)
    ensures Total(keys + [x], RemovedKey) == Total(keys, RemovedKey) + RemovedKey(x)
    ensures Total(keys + [x], ChangedKey) == Total(keys, ChangedKey) + ChangedKey(x)
  {
    TotalAppend(keys, x, AddedKey);
    TotalAppend(keys, x, RemovedKey);
    TotalAppend(keys, x, ChangedKey);
  }

  lemma TotalsSort(keys: seq<Entry<KeyChange>>)
    ensures Total(SortByKey(keys), AddedKey) == Total(keys, AddedKey)
    ensures Total(SortByKey(keys), RemovedKey) == Total(keys, RemovedKey)
    ensures Total(SortByKey(keys), ChangedKey) == Total(keys, ChangedKey)
  {
    TotalSort(KeyBefore, keys, AddedKey);
    TotalSort(KeyBefore, keys, RemovedKey);
    TotalSort(KeyBefore, keys, ChangedKey);
  }

  // ---- Secrets that exist on one side only ----

  function Tag(added: bool, value: JsString): KeyChange {
    if added then KeyAdded(|value|) else KeyRemoved(|value|)
  }

  ghost function Tagged(added: bool, entries: Data): seq<Entry<KeyChange>> {
    FilterMap(entries, (e: Entry<JsString>) => Some(Tag(added, e.value)))
  }

  function OneSided(added: bool, values: Values): map<JsString, KeyChange> {
    if added then KeyChanges(map[], values) else KeyChanges(values, map[])
  }

  lemma TaggedIsListing(added: bool, data: Data)
    requires UniqueKeys(data)
    ensures Tagged(added, SortByKey(data)) == Listed(OneSided(added, MapOf(data)))
  {
    var entries, changes := SortByKey(data), OneSided(added, MapOf(data));
    var r := Tagged(added, entries);
    SortIsListing(data);
    FilterMapHolds(entries, (e: Entry<JsString>) => Some(Tag(added, e.value)));
    forall c: Entry<KeyChange> ensures c in r <==> c.key in changes && changes[c.key] == c.value {
      InListing(entries, MapOf(data), c.key);
    }
    EntriesDetermineMap(r, changes);
    TaggedSameKeys(added, entries);
    TaggedStaysSorted(entries, r);
    ListingIsUnique(r, Listed(changes), changes);
  }

  lemma {:induction false} TaggedSameKeys(added: bool, entries: Data)
    ensures |Tagged(added, entries)| == |entries|
    ensures forall i | 0 <= i < |entries| :: Tagged(added, entries)[i].key == entries[i].key
  {
    if entries != [] {
      TaggedSameKeys(added, entries[..|entries| - 1]);
    }
  }

  lemma TaggedStaysSorted(entries: Data, r: seq<Entry<KeyChange>>)
    requires SortedBy<Entry<JsString>>(KeyBefore, entries) && |r| == |entries|
    requires forall i | 0 <= i < |entries| :: r[i].key == entries[i].key
    ensures SortedBy<Entry<KeyChange>>(KeyBefore, r)
  {
    forall i, j | 0 <= i < j < |r| ensures !KeyBefore(r[j], r[i]) {
      assert !KeyBefore(entries[j], entries[i]);
    }
  }

  /** All the keys of a secret that was added or removed as a whole. */
  method OneSidedKeys(added: bool, data: Data, summary: DiffSummary) returns (keys: seq<Entry<KeyChange>>)
    requires UniqueKeys(data)
    modifies summary
    ensures keys == Listed(OneSided(added, MapOf(data)))
    ensures KeysCounted(summary, old(summary.keysAdded), old(summary.keysRemoved), old(summary.keysChanged), keys)
    ensures unchanged(summary`secretsAdded, summary`secretsRemoved, summary`secretsChanged)
  {
    keys := [];
    var entries := SortByKey(data);
    for i := 0 to |entries|
      invariant keys == Tagged(added, entries[..i])
      invariant KeysCounted(summary, old(summary.keysAdded), old(summary.keysRemoved), old(summary.keysChanged), keys)
      invariant unchanged(summary`secretsAdded, summary`secretsRemoved, summary`secretsChanged)
    {
      assert entries[..i + 1] == entries[..i] + [entries[i]];
      FilterMapAppend(entries[..i], entries[i], (e: Entry<JsString>) => Some(Tag(added, e.value)));
      TotalsAppend(keys, Entry(entries[i].key, Tag(added, entries[i].value)));
      keys := PushKey(keys, Entry(entries[i].key, Tag(added, entries[i].value)), summary);
    }
    assert entries[..|entries|] == entries;
    TaggedIsListing(added, data);
  }

  // ---- Secrets ----

  function ByName(list: seq<Secret>, name: JsString): (r: Option<Secret>)
    ensures r.Some? ==> r.value in list && r.value.name == name
    ensures r.None? ==> forall s | s in list :: s.name != name
  {
    if list == [] then None else if list[0].name == name then Some(list[0]) else ByName(list[1..], name)
  }

  lemma ByNameReadsContent(list: seq<Secret>, name: JsString)
    requires WellFormed(list)
    ensures ByName(list, name).Some? <==> name in ContentOf(list)
    ensures ByName(list, name).Some? ==> ContentOf(list)[name] == MapOf(ByName(list, name).value.data)
  {
    if ByName(list, name).Some? {
      ContentHas(list, ByName(list, name).value);
    }
    if name in ContentOf(list) {
      var s := ContentComesFrom(list, name);
    }
  }

  ghost function IncomingChange(current: seq<Secret>, e: Entry<Data>): Option<SecretChange>
    requires WellFormed(current)
  {
    if !UniqueKeys(e.value) then None
    else
      match ByName(current, e.key)
      case None => Some(SecretChange(Added, Listed(KeyChanges(map[], MapOf(e.value)))))
      case Some(before) =>
        var keys := Listed(KeyChanges(MapOf(before.data), MapOf(e.value)));
        if keys != [] then Some(SecretChange(Changed, keys)) else None
  }

  ghost function CurrentChange(incoming: seq<Secret>, e: Entry<Data>): Option<SecretChange> {
    if !UniqueKeys(e.value) || ByName(incoming, e.key).Some? then None
    else Some(SecretChange(Removed, Listed(KeyChanges(MapOf(e.value), map[]))))
  }

  ghost function FromIncoming(current: seq<Secret>, entries: seq<Entry<Data>>): seq<Entry<SecretChange>>
    requires WellFormed(current)
  {
    FilterMap(entries, e => IncomingChange(current, e))
  }

  ghost function FromCurrent(incoming: seq<Secret>, entries: seq<Entry<Data>>): seq<Entry<SecretChange>> {
    FilterMap(entries, e => CurrentChange(incoming, e))
  }

  lemma NoKeyChangesMeansEqual(before: Values, after: Values)
    ensures Listed(KeyChanges(before, after)) == [] <==> before == after
  {
    var changes := KeyChanges(before, after);
    if Listed(changes) == [] {
      forall k | k in before.Keys + after.Keys ensures k in before && k in after && before[k] == after[k] {
        assert k !in changes;
      }
    }
    if before == after {
      EntriesDetermineMap([], changes);
      ListingIsUnique([], Listed(changes), changes);
    }
  }

  lemma NamedReadsContent(list: seq<Secret>, n: JsString)
    requires WellFormed(list)
    ensures UniqueKeys(Named(list))
    ensures n in ContentOf(list) <==> exists e :: e in Named(list) && e.key == n
    ensures forall e | e in Named(list) && e.key == n :: UniqueKeys(e.value) && n in ContentOf(list) && ContentOf(list)[n] == MapOf(e.value)
  {
    forall e | e in Named(list) && e.key == n
      ensures UniqueKeys(e.value) && n in ContentOf(list) && ContentOf(list)[n] == MapOf(e.value)
    {
      var i :| 0 <= i < |list| && Named(list)[i] == e;
      ContentHas(list, list[i]);
    }
    if n in ContentOf(list) {
      var s := ContentComesFrom(list, n);
      var i :| 0 <= i < |list| && list[i] == s;
      assert Named(list)[i] in Named(list);
    }
  }

  lemma FromIncomingHolds(current: seq<Secret>, incoming: seq<Secret>)
    requires WellFormed(current) && WellFormed(incoming)
    ensures var changes := SecretChanges(ContentOf(current), ContentOf(incoming));
            UniqueKeys(FromIncoming(current, Named(incoming)))
            && forall c :: c in FromIncoming(current, Named(incoming)) <==> c.key in ContentOf(incoming) && c.key in changes && changes[c.key] == c.value
  {
    var changes := SecretChanges(ContentOf(current), ContentOf(incoming));
    NamedReadsContent(incoming, []);
    FilterMapHolds(Named(incoming), e => IncomingChange(current, e));
    forall c: Entry<SecretChange>
      ensures c in FromIncoming(current, Named(incoming)) <==> c.key in ContentOf(incoming) && c.key in changes && changes[c.key] == c.value
    {
      NamedReadsContent(incoming, c.key);
      ByNameReadsContent(current, c.key);
      if c.key in ContentOf(incoming) && c.key in ContentOf(current) {
        NoKeyChangesMeansEqual(ContentOf(current)[c.key], ContentOf(incoming)[c.key]);
      }
    }
  }

  lemma FromCurrentHolds(current: seq<Secret>, incoming: seq<Secret>)
    requires WellFormed(current) && WellFormed(incoming)
    ensures var changes := SecretChanges(ContentOf(current), ContentOf(incoming));
            UniqueKeys(FromCurrent(incoming, Named(current)))
            && forall c :: c in FromCurrent(incoming, Named(current)) <==> c.key !in ContentOf(incoming) && c.key in changes && changes[c.key] == c.value
  {
    var changes := SecretChanges(ContentOf(current), ContentOf(incoming));
    NamedReadsContent(current, []);
    FilterMapHolds(Named(current), e => CurrentChange(incoming, e));
    forall c: Entry<SecretChange>
      ensures c in FromCurrent(incoming, Named(current)) <==> c.key !in ContentOf(incoming) && c.key in changes && changes[c.key] == c.value
    {
      NamedReadsContent(current, c.key);
      ByNameReadsContent(incoming, c.key);
    }
  }

  lemma CollectedSecretsAreTheChanges(current: seq<Secret>, incoming: seq<Secret>)
    requires WellFormed(current) && WellFormed(incoming)
    ensures SortByKey(FromIncoming(current, Named(incoming)) + FromCurrent(incoming, Named(current)))
         == DiffOf(ContentOf(current), ContentOf(incoming))
  {
    FromIncomingHolds(current, incoming);
    FromCurrentHolds(current, incoming);
    ChangesSplit(FromIncoming(current, Named(incoming)), FromCurrent(incoming, Named(current)),
                 FromIncoming(current, Named(incoming)) + FromCurrent(incoming, Named(current)),
                 SecretChanges(ContentOf(current), ContentOf(incoming)), ContentOf(incoming).Keys);
  }

  /** Appends one secret entry whose keys are already counted, and counts it. */
  method PushSecret(secrets: seq<Entry<SecretChange>>, x: Entry<SecretChange>, summary: DiffSummary,
                    ghost added: nat, ghost removed: nat, ghost changed: nat)
    returns (r: seq<Entry<SecretChange>>)
    requires summary.secretsAdded == Total(secrets, AddedSecret)
    requires summary.secretsRemoved == Total(secrets, RemovedSecret)
    requires summary.secretsChanged == Total(secrets, ChangedSecret)
    requires added == Total(secrets, KeysAddedIn) && removed == Total(secrets, KeysRemovedIn) && changed == Total(secrets, KeysChangedIn)
    requires KeysCounted(summary, added, removed, changed, x.value.keys)
    modifies summary
    ensures r == secrets + [x] && summary.Counts(r)
  {
    TotalAppend(secrets, x, AddedSecret);
    TotalAppend(secrets, x, RemovedSecret);
    TotalAppend(secrets, x, ChangedSecret);
    TotalAppend(secrets, x, KeysAddedIn);
    TotalAppend(secrets, x, KeysRemovedIn);
    TotalAppend(secrets, x, KeysChangedIn);
    match x.value.status {
      case Added => summary.secretsAdded := summary.secretsAdded + 1;
      case Removed => summary.secretsRemoved := summary.secretsRemoved + 1;
      case Changed => summary.secretsChanged := summary.secretsChanged + 1;
    }
    r := secrets + [x];
  }

  lemma FromIncomingStep(current: seq<Secret>, entries: seq<Entry<Data>>, i: nat)
    requires WellFormed(current) && i < |entries|
    ensures var c := IncomingChange(current, entries[i]);
            FromIncoming(current, entries[..i + 1])
            == FromIncoming(current, entries[..i]) + (if c.Some? then [Entry(entries[i].key, c.value)] else [])
  {
    assert entries[..i + 1] == entries[..i] + [entries[i]];
    FilterMapAppend(entries[..i], entries[i], e => IncomingChange(current, e));
  }

  lemma FromCurrentStep(incoming: seq<Secret>, entries: seq<Entry<Data>>, i: nat)
    requires i < |entries|
    ensures var c := CurrentChange(incoming, entries[i]);
            FromCurrent(incoming, entries[..i + 1])
            == FromCurrent(incoming, entries[..i]) + (if c.Some? then [Entry(entries[i].key, c.value)] else [])
  {
    assert entries[..i + 1] == entries[..i] + [entries[i]];
    FilterMapAppend(entries[..i], entries[i], e => CurrentChange(incoming, e));
  }

  // ---- computeSecretsDiff ----

  /**
   * The answer lists every secret and every key that differs, once, in order, as added when only `incoming` has it, as
   * removed when only `current` has it, and as changed when both have it differently. The six counters count those.
   */
  method ComputeSecretsDiff(current: seq<Secret>, incoming: seq<Secret>) returns (summary: DiffSummary, secrets: seq<Entry<SecretChange>>)
    requires WellFormed(current) && WellFormed(incoming)
    ensures fresh(summary) && summary.Counts(secrets)
    ensures ListsSecrets(secrets, ContentOf(current), ContentOf(incoming))
    ensures secrets == DiffOf(ContentOf(current), ContentOf(incoming))
    ensures summary.secretsAdded == |ContentOf(incoming).Keys - ContentOf(current).Keys|
    ensures summary.secretsRemoved == |ContentOf(current).Keys - ContentOf(incoming).Keys|
    ensures summary.secretsChanged == |NamesChangedBetween(ContentOf(current), ContentOf(incoming))|
    ensures summary.keysAdded == |KeysOnlyIn(ContentOf(incoming), ContentOf(current))|
    ensures summary.keysRemoved == |KeysOnlyIn(ContentOf(current), ContentOf(incoming))|
    ensures summary.keysChanged == |KeysChangedBetween(ContentOf(current), ContentOf(incoming))|
  {
    summary := new DiffSummary();
    secrets := DiffAllIncoming(current, incoming, summary);
    secrets := DiffAllCurrent(current, incoming, secrets, summary);
    CollectedSecretsAreTheChanges(current, incoming);
    SecretTotalsSort(secrets);
    secrets := SortByKey(secrets);
    SecretsAreListed(secrets, ContentOf(current), ContentOf(incoming));
    CountersCount(secrets, ContentOf(current), ContentOf(incoming));
  }

  method DiffAllIncoming(current: seq<Secret>, incoming: seq<Secret>, summary: DiffSummary) returns (secrets: seq<Entry<SecretChange>>)
    requires WellFormed(current) && WellFormed(incoming) && summary.Counts([])
    modifies summary
    ensures summary.Counts(secrets) && secrets == FromIncoming(current, Named(incoming))
  {
    secrets := [];
    for i := 0 to |incoming|
      invariant secrets == FromIncoming(current, Named(incoming)[..i])
      invariant summary.Counts(secrets)
    {
      secrets := DiffIncoming(current, incoming, i, secrets, summary);
    }
    assert Named(incoming)[..|incoming|] == Named(incoming);
  }

  method DiffAllCurrent(current: seq<Secret>, incoming: seq<Secret>, collected: seq<Entry<SecretChange>>, summary: DiffSummary)
    returns (secrets: seq<Entry<SecretChange>>)
    requires WellFormed(current) && WellFormed(incoming) && summary.Counts(collected)
    modifies summary
    ensures summary.Counts(secrets) && secrets == collected + FromCurrent(incoming, Named(current))
  {
    secrets := collected;
    for i := 0 to |current|
      invariant secrets == collected + FromCurrent(incoming, Named(current)[..i])
      invariant summary.Counts(secrets)
    {
      ghost var before := FromCurrent(incoming, Named(current)[..i]);
      secrets := DiffCurrent(current, incoming, i, secrets, summary);
      FromCurrentStep(incoming, Named(current), i);
      assert secrets == collected + FromCurrent(incoming, Named(current)[..i + 1]);
    }
    assert Named(current)[..|current|] == Named(current);
  }

  lemma SecretTotalsSort(secrets: seq<Entry<SecretChange>>)
    ensures Total(SortByKey(secrets), AddedSecret) == Total(secrets, AddedSecret)
    ensures Total(SortByKey(secrets), RemovedSecret) == Total(secrets, RemovedSecret)
    ensures Total(SortByKey(secrets), ChangedSecret) == Total(secrets, ChangedSecret)
    ensures Total(SortByKey(secrets), KeysAddedIn) == Total(secrets, KeysAddedIn)
    ensures Total(SortByKey(secrets), KeysRemovedIn) == Total(secrets, KeysRemovedIn)
    ensures Total(SortByKey(secrets), KeysChangedIn) == Total(secrets, KeysChangedIn)
  {
    TotalSort(KeyBefore, secrets, AddedSecret);
    TotalSort(KeyBefore, secrets, RemovedSecret);
    TotalSort(KeyBefore, secrets, ChangedSecret);
    TotalSort(KeyBefore, secrets, KeysAddedIn);
    TotalSort(KeyBefore, secrets, KeysRemovedIn);
    TotalSort(KeyBefore, secrets, KeysChangedIn);
  }

  /** One more entry, which says what happened to this name. */
  ghost predicate AppendsChange(collected: seq<Entry<SecretChange>>, secrets: seq<Entry<SecretChange>>, n: JsString, before: Content, after: Content) {
    && |secrets| == |collected| + 1 && secrets[..|collected|] == collected
    && secrets[|collected|].key == n && DescribesSecret(secrets[|collected|], before, after)
  }

  lemma IncomingChangeIsExact(current: seq<Secret>, incoming: seq<Secret>, i: nat)
    requires WellFormed(current) && WellFormed(incoming) && i < |incoming|
    ensures var n, c := incoming[i].name, IncomingChange(current, Named(incoming)[i]);
            && (c.Some? <==> Differs(ContentOf(current), ContentOf(incoming), n))
            && (c.Some? ==> DescribesSecret(Entry(n, c.value), ContentOf(current), ContentOf(incoming)))
  {
    var n, before := incoming[i].name, ContentOf(current);
    ContentHas(incoming, incoming[i]);
    ByNameReadsContent(current, n);
    NoKeyChangesMeansEqual(ValuesOf(before, n), MapOf(incoming[i].data));
    KeysAreListed(Listed(KeyChanges(ValuesOf(before, n), MapOf(incoming[i].data))), ValuesOf(before, n), MapOf(incoming[i].data));
  }

  lemma CurrentChangeIsExact(current: seq<Secret>, incoming: seq<Secret>, i: nat)
    requires WellFormed(current) && WellFormed(incoming) && i < |current|
    ensures var n, c := current[i].name, CurrentChange(incoming, Named(current)[i]);
            && (c.Some? <==> n !in ContentOf(incoming))
            && (c.Some? ==> DescribesSecret(Entry(n, c.value), ContentOf(current), ContentOf(incoming)))
  {
    ContentHas(current, current[i]);
    ByNameReadsContent(incoming, current[i].name);
    KeysAreListed(Listed(KeyChanges(MapOf(current[i].data), map[])), MapOf(current[i].data), map[]);
  }

  /** One iteration of the loop over the incoming secrets. */
  method DiffIncoming(current: seq<Secret>, incoming: seq<Secret>, i: nat, collected: seq<Entry<SecretChange>>, summary: DiffSummary)
    returns (secrets: seq<Entry<SecretChange>>)
    requires WellFormed(current) && WellFormed(incoming) && i < |incoming|
    requires summary.Counts(collected) && collected == FromIncoming(current, Named(incoming)[..i])
    modifies summary
    ensures summary.Counts(secrets) && secrets == FromIncoming(current, Named(incoming)[..i + 1])
    ensures if Differs(ContentOf(current), ContentOf(incoming), incoming[i].name)
            then AppendsChange(collected, secrets, incoming[i].name, ContentOf(current), ContentOf(incoming))
            else secrets == collected
  {
    FromIncomingStep(current, Named(incoming), i);
    IncomingChangeIsExact(current, incoming, i);
    var secret := incoming[i];
    assert UniqueKeys(secret.data) by { assert secret in incoming; }
    ghost var added, removed, changed := summary.keysAdded, summary.keysRemoved, summary.keysChanged;
    var before := ByName(current, secret.name);
    if before.None? {
      var keys := OneSidedKeys(true, secret.data, summary);
      secrets := PushSecret(collected, Entry(secret.name, SecretChange(Added, keys)), summary, added, removed, changed);
    } else {
      var keys := DiffSecretKeys(before.value.data, secret.data, summary);
      secrets := collected;
      if keys != [] {
        secrets := PushSecret(collected, Entry(secret.name, SecretChange(Changed, keys)), summary, added, removed, changed);
      }
    }
  }

  /** One iteration of the loop over the current secrets. */
  method DiffCurrent(current: seq<Secret>, incoming: seq<Secret>, i: nat, collected: seq<Entry<SecretChange>>, summary: DiffSummary)
    returns (secrets: seq<Entry<SecretChange>>)
    requires WellFormed(current) && WellFormed(incoming) && i < |current| && summary.Counts(collected)
    modifies summary
    ensures summary.Counts(secrets)
    ensures if current[i].name in ContentOf(incoming) then secrets == collected
            else AppendsChange(collected, secrets, current[i].name, ContentOf(current), ContentOf(incoming))
    ensures var c := CurrentChange(incoming, Named(current)[i]);
            secrets == collected + (if c.Some? then [Entry(current[i].name, c.value)] else [])
  {
    var secret := current[i];
    CurrentChangeIsExact(current, incoming, i);
    assert UniqueKeys(secret.data) by { assert secret in current; }
    if ByName(incoming, secret.name).Some? {
      return collected;
    }
    ghost var added, removed, changed := summary.keysAdded, summary.keysRemoved, summary.keysChanged;
    var keys := OneSidedKeys(false, secret.data, summary);
    secrets := PushSecret(collected, Entry(secret.name, SecretChange(Removed, keys)), summary, added, removed, changed);
  }
}
