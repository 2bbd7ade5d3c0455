/** What a structural difference is: its entries, their order and their counts, apart from the algorithm that computes it. */
module Difference {
  import opened JsStrings
  import opened Sorting
  import opened Model

  type Values = map<JsString, JsString>

  datatype Status = Added | Removed | Changed

  /** Lengths only: a difference never carries a value. */
  datatype KeyChange = KeyAdded(valueLength: nat) | KeyRemoved(valueLength: nat) | KeyChanged(lengthBefore: nat, lengthAfter: nat)

  datatype SecretChange = SecretChange(status: Status, keys: seq<Entry<KeyChange>>)

  // ---- What the difference is, on contents ----

  function KeyChanges(before: Values, after: Values): map<JsString, KeyChange> {
    map k | k in before.Keys + after.Keys && !(k in before && k in after && before[k] == after[k]) ::
      if k !in before then KeyAdded(|after[k]|)
      else if k !in after then KeyRemoved(|before[k]|)
      else KeyChanged(|before[k]|, |after[k]|)
  }

  ghost function SecretChanges(before: Content, after: Content): map<JsString, SecretChange> {
    map n | n in before.Keys + after.Keys && !(n in before && n in after && before[n] == after[n]) ::
      if n !in before then SecretChange(Added, Listed(KeyChanges(map[], after[n])))
      else if n !in after then SecretChange(Removed, Listed(KeyChanges(before[n], map[])))
      else SecretChange(Changed, Listed(KeyChanges(before[n], after[n])))
  }

  /** The entries that differ, in name order, each with its keys that differ, in key order. */
  ghost function DiffOf(before: Content, after: Content): seq<Entry<SecretChange>> {
    Listed(SecretChanges(before, after))
  }

  // ---- Counters ----

  function AddedKey(x: Entry<KeyChange>): nat { if x.value.KeyAdded? then 1 else 0 }

  function RemovedKey(x: Entry<KeyChange>): nat { if x.value.KeyRemoved? then 1 else 0 }

  function ChangedKey(x: Entry<KeyChange>): nat { if x.value.KeyChanged? then 1 else 0 }

  function AddedSecret(x: Entry<SecretChange>): nat { if x.value.status == Added then 1 else 0 }

  function RemovedSecret(x: Entry<SecretChange>): nat { if x.value.status == Removed then 1 else 0 }

  function ChangedSecret(x: Entry<SecretChange>): nat { if x.value.status == Changed then 1 else 0 }

  function KeysAddedIn(x: Entry<SecretChange>): nat { Total(x.value.keys, AddedKey) }

  function KeysRemovedIn(x: Entry<SecretChange>): nat { Total(x.value.keys, RemovedKey) }

  function KeysChangedIn(x: Entry<SecretChange>): nat { Total(x.value.keys, ChangedKey) }

  // ---- What an entry says ----

  /** A key or a name that one side lacks, or that has another value on each side. */
  ghost predicate Differs<V>(before: map<JsString, V>, after: map<JsString, V>, k: JsString) {
    (k in before || k in after) && !(k in before && k in after && before[k] == after[k])
  }

  ghost predicate DescribesKey(x: Entry<KeyChange>, before: Values, after: Values) {
    match x.value
    case KeyAdded(n) => x.key !in before && x.key in after && n == |after[x.key]|
    case KeyRemoved(n) => x.key in before && x.key !in after && n == |before[x.key]|
    case KeyChanged(b, a) =>
      && x.key in before && x.key in after && before[x.key] != after[x.key]
      && b == |before[x.key]| && a == |after[x.key]|
  }

  ghost predicate Ascending<V>(s: seq<Entry<V>>) {
    forall i, j | 0 <= i < j < |s| :: Less(s[i].key, s[j].key)
  }

  /** Every key that differs, once, in key order, each with what happened to it. */
  ghost predicate ListsKeys(keys: seq<Entry<KeyChange>>, before: Values, after: Values) {
    && Ascending(keys)
    && (forall x | x in keys :: DescribesKey(x, before, after))
    && (forall k | Differs(before, after, k) :: exists x :: x in keys && x.key == k)
  }

  ghost predicate DescribesSecret(x: Entry<SecretChange>, before: Content, after: Content) {
    match x.value.status
    case Added => x.key !in before && x.key in after && ListsKeys(x.value.keys, map[], after[x.key])
    case Removed => x.key in before && x.key !in after && ListsKeys(x.value.keys, before[x.key], map[])
    case Changed =>
      && x.key in before && x.key in after && before[x.key] != after[x.key]
      && ListsKeys(x.value.keys, before[x.key], after[x.key])
  }

  /** Every secret that differs, once, in name order, each with what happened to it and to its keys. */
  ghost predicate ListsSecrets(secrets: seq<Entry<SecretChange>>, before: Content, after: Content) {
    && Ascending(secrets)
    && (forall x | x in secrets :: DescribesSecret(x, before, after))
    && (forall n | Differs(before, after, n) :: exists x :: x in secrets && x.key == n)
  }

  /** The keys and values of a secret; none when the name is missing. */
  ghost function ValuesOf(c: Content, n: JsString): Values {
    if n in c then c[n] else map[]
  }

  lemma ListingAscends<V(!new)>(s: seq<Entry<V>>, m: map<JsString, V>)
    requires IsListing(s, m)
    ensures Ascending(s)
  {
    forall i, j | 0 <= i < j < |s| ensures Less(s[i].key, s[j].key) {
      assert !KeyBefore(s[j], s[i]);
      LessIsConnected(s[i].key, s[j].key);
    }
  }

  lemma AscendingIsListing<V(!new)>(s: seq<Entry<V>>, m: map<JsString, V>)
    requires Ascending(s)
    requires forall x | x in s :: x.key in m && m[x.key] == x.value
    requires forall k | k in m :: exists x :: x in s && x.key == k
    ensures UniqueKeys(s) && s == Listed(m)
  {
    forall i, j | 0 <= i < j < |s| ensures s[i].key != s[j].key && !KeyBefore(s[j], s[i]) {
      LessIsAsymmetric(s[i].key, s[j].key);
    }
    EntriesDetermineMap(s, m);
    ListingIsUnique(s, Listed(m), m);
  }

  lemma DescribedKey(x: Entry<KeyChange>, before: Values, after: Values)
    ensures DescribesKey(x, before, after) <==> x.key in KeyChanges(before, after) && KeyChanges(before, after)[x.key] == x.value
  {
  }

  /** A list of keys describes the difference exactly when it is the listing of the changes. */
  lemma KeysAreListed(keys: seq<Entry<KeyChange>>, before: Values, after: Values)
    ensures ListsKeys(keys, before, after) <==> keys == Listed(KeyChanges(before, after))
  {
    var changes := KeyChanges(before, after);
    forall x: Entry<KeyChange> ensures DescribesKey(x, before, after) <==> x.key in changes && changes[x.key] == x.value {
      DescribedKey(x, before, after);
    }
    forall k ensures Differs(before, after, k) <==> k in changes {
    }
    if ListsKeys(keys, before, after) {
      AscendingIsListing(keys, changes);
    }
    if keys == Listed(changes) {
      ListingAscends(keys, changes);
      forall k | Differs(before, after, k) ensures exists x :: x in keys && x.key == k {
        assert Entry(k, changes[k]) in keys;
      }
    }
  }

  lemma DescribedSecret(x: Entry<SecretChange>, before: Content, after: Content)
    ensures DescribesSecret(x, before, after) <==> x.key in SecretChanges(before, after) && SecretChanges(before, after)[x.key] == x.value
  {
    KeysAreListed(x.value.keys, ValuesOf(before, x.key), ValuesOf(after, x.key));
  }

  /** The same for secrets: these entries, their order and their lengths leave one possible answer. */
  lemma SecretsAreListed(secrets: seq<Entry<SecretChange>>, before: Content, after: Content)
    ensures ListsSecrets(secrets, before, after) <==> secrets == DiffOf(before, after)
  {
    var changes := SecretChanges(before, after);
    forall x: Entry<SecretChange> ensures DescribesSecret(x, before, after) <==> x.key in changes && changes[x.key] == x.value {
      DescribedSecret(x, before, after);
    }
    forall n ensures Differs(before, after, n) <==> n in changes {
    }
    if ListsSecrets(secrets, before, after) {
      AscendingIsListing(secrets, changes);
    }
    if secrets == DiffOf(before, after) {
      ListingAscends(secrets, changes);
      forall n | Differs(before, after, n) ensures exists x :: x in secrets && x.key == n {
        assert Entry(n, changes[n]) in secrets;
      }
    }
  }

  // ---- What the counters count ----

  /** The names and keys that `x` has and `y` has not. */
  ghost function KeysOnlyIn(x: Content, y: Content): set<(JsString, JsString)> {
    set n, k | n in x && k in x[n] && !(n in y && k in y[n]) :: (n, k)
  }

  /** The names and keys that both have, with different values. */
  ghost function KeysChangedBetween(x: Content, y: Content): set<(JsString, JsString)> {
    set n, k | n in x && n in y && k in x[n] && k in y[n] && x[n][k] != y[n][k] :: (n, k)
  }

  ghost function NamesChangedBetween(x: Content, y: Content): set<JsString> {
    set n | n in x && n in y && x[n] != y[n]
  }

  ghost function Weighted<V>(s: seq<Entry<V>>, weight: Entry<V> -> nat): set<JsString> {
    set x | x in s && weight(x) == 1 :: x.key
  }

  lemma WeightedAppend<V>(init: seq<Entry<V>>, x: Entry<V>, weight: Entry<V> -> nat)
    ensures Weighted(init + [x], weight) == Weighted(init, weight) + (if weight(x) == 1 then {x.key} else {})
  {
  }

  lemma UniqueAppended<V>(init: seq<Entry<V>>, x: Entry<V>)
    requires UniqueKeys(init + [x])
    ensures UniqueKeys(init) && forall y | y in init :: y.key != x.key
  {
    var s := init + [x];
    assert forall i | 0 <= i < |init| :: s[i] == init[i];
    assert s[|init|] == x;
  }

  /** A counter over entries with distinct keys is the size of a set of keys. */
  lemma {:induction false} CountedOnce<V>(s: seq<Entry<V>>, weight: Entry<V> -> nat)
    requires UniqueKeys(s) && forall x | x in s :: weight(x) <= 1
    ensures Total(s, weight) == |Weighted(s, weight)|
  {
    if s != [] {
      var init, x := s[..|s| - 1], s[|s| - 1];
      assert s == init + [x] && x in s && forall y | y in init :: y in s;
      UniqueAppended(init, x);
      CountedOnce(init, weight);
      WeightedAppend(init, x, weight);
      assert x.key !in Weighted(init, weight);
    }
  }

  ghost function WeightedPairs(s: seq<Entry<SecretChange>>, weight: Entry<KeyChange> -> nat): set<(JsString, JsString)> {
    set x, y | x in s && y in x.value.keys && weight(y) == 1 :: (x.key, y.key)
  }

  ghost function Paired(n: JsString, keys: set<JsString>): set<(JsString, JsString)> {
    set k | k in keys :: (n, k)
  }

  lemma {:induction false} PairedCount(n: JsString, keys: set<JsString>)
    ensures |Paired(n, keys)| == |keys|
    decreases |keys|
  {
    if keys != {} {
      var k :| k in keys;
      PairedCount(n, keys - {k});
      assert Paired(n, keys) == Paired(n, keys - {k}) + {(n, k)};
    }
  }

  lemma PairsSplit(init: seq<Entry<SecretChange>>, x: Entry<SecretChange>, weight: Entry<KeyChange> -> nat)
    ensures WeightedPairs(init + [x], weight) == WeightedPairs(init, weight) + Paired(x.key, Weighted(x.value.keys, weight))
  {
    var all := init + [x];
    forall p ensures p in WeightedPairs(all, weight) <==> p in WeightedPairs(init, weight) || p in Paired(x.key, Weighted(x.value.keys, weight)) {
      if p in WeightedPairs(init, weight) {
        var z, y :| z in init && y in z.value.keys && weight(y) == 1 && p == (z.key, y.key);
        assert z in all;
      }
      if p in Paired(x.key, Weighted(x.value.keys, weight)) {
        var y :| y in x.value.keys && weight(y) == 1 && p == (x.key, y.key);
        assert x in all;
      }
    }
  }

  lemma PairsApart(init: seq<Entry<SecretChange>>, x: Entry<SecretChange>, weight: Entry<KeyChange> -> nat)
    requires forall y | y in init :: y.key != x.key
    ensures WeightedPairs(init, weight) !! Paired(x.key, Weighted(x.value.keys, weight))
  {
  }

  /** The same for a counter over the keys of entries with distinct names. */
  lemma {:induction false} PairsCountedOnce(s: seq<Entry<SecretChange>>, weight: Entry<KeyChange> -> nat, inSecret: Entry<SecretChange> -> nat)
    requires UniqueKeys(s) && forall x | x in s :: UniqueKeys(x.value.keys) && inSecret(x) == Total(x.value.keys, weight)
    requires forall y :: weight(y) <= 1
    ensures Total(s, inSecret) == |WeightedPairs(s, weight)|
  {
    if s != [] {
      var init, x := s[..|s| - 1], s[|s| - 1];
      assert s == init + [x] && x in s && forall y | y in init :: y in s;
      UniqueAppended(init, x);
      PairsCountedOnce(init, weight, inSecret);
      CountedOnce(x.value.keys, weight);
      PairedCount(x.key, Weighted(x.value.keys, weight));
      PairsSplit(init, x, weight);
      PairsApart(init, x, weight);
    }
  }

  // ---- The counters of a difference ----

  lemma NamesOf(d: seq<Entry<SecretChange>>, before: Content, after: Content)
    requires ListsSecrets(d, before, after)
    ensures UniqueKeys(d) && forall x | x in d :: UniqueKeys(x.value.keys)
    ensures Weighted(d, AddedSecret) == after.Keys - before.Keys
    ensures Weighted(d, RemovedSecret) == before.Keys - after.Keys
    ensures Weighted(d, ChangedSecret) == NamesChangedBetween(before, after)
  {
    SecretsAreListed(d, before, after);
    forall x | x in d ensures UniqueKeys(x.value.keys) {
      KeysAreListed(x.value.keys, ValuesOf(before, x.key), ValuesOf(after, x.key));
    }
    forall n | Differs(before, after, n) ensures exists x :: x in d && x.key == n {
    }
    forall n ensures n in Weighted(d, AddedSecret) <==> n in after.Keys - before.Keys {
      assert n in after.Keys - before.Keys ==> Differs(before, after, n);
    }
    forall n ensures n in Weighted(d, RemovedSecret) <==> n in before.Keys - after.Keys {
      assert n in before.Keys - after.Keys ==> Differs(before, after, n);
    }
    forall n ensures n in Weighted(d, ChangedSecret) <==> n in NamesChangedBetween(before, after) {
      assert n in NamesChangedBetween(before, after) ==> Differs(before, after, n);
    }
  }

  lemma PairOf(d: seq<Entry<SecretChange>>, before: Content, after: Content, n: JsString, k: JsString) returns (x: Entry<SecretChange>, y: Entry<KeyChange>)
    requires ListsSecrets(d, before, after)
    requires Differs(ValuesOf(before, n), ValuesOf(after, n), k)
    ensures x in d && x.key == n && y in x.value.keys && y.key == k
    ensures DescribesKey(y, ValuesOf(before, n), ValuesOf(after, n))
  {
    assert Differs(before, after, n);
    x :| x in d && x.key == n;
    y :| y in x.value.keys && y.key == k;
  }

  lemma PairIsDescribed(d: seq<Entry<SecretChange>>, before: Content, after: Content, x: Entry<SecretChange>, y: Entry<KeyChange>)
    requires ListsSecrets(d, before, after) && x in d && y in x.value.keys
    ensures DescribesKey(y, ValuesOf(before, x.key), ValuesOf(after, x.key))
  {
  }

  /** What is listed of a key of a secret. */
  lemma PairIs(d: seq<Entry<SecretChange>>, before: Content, after: Content, n: JsString, k: JsString)
    requires ListsSecrets(d, before, after)
    ensures (n, k) in WeightedPairs(d, AddedKey) <==> k !in ValuesOf(before, n) && k in ValuesOf(after, n)
    ensures (n, k) in WeightedPairs(d, RemovedKey) <==> k in ValuesOf(before, n) && k !in ValuesOf(after, n)
    ensures (n, k) in WeightedPairs(d, ChangedKey) <==>
              k in ValuesOf(before, n) && k in ValuesOf(after, n) && ValuesOf(before, n)[k] != ValuesOf(after, n)[k]
  {
    forall x, y | x in d && y in x.value.keys && x.key == n && y.key == k
      ensures DescribesKey(y, ValuesOf(before, n), ValuesOf(after, n))
    {
      PairIsDescribed(d, before, after, x, y);
    }
    if Differs(ValuesOf(before, n), ValuesOf(after, n), k) {
      var x, y := PairOf(d, before, after, n, k);
    }
  }

  lemma PairsOf(d: seq<Entry<SecretChange>>, before: Content, after: Content)
    requires ListsSecrets(d, before, after)
    ensures WeightedPairs(d, AddedKey) == KeysOnlyIn(after, before)
    ensures WeightedPairs(d, RemovedKey) == KeysOnlyIn(before, after)
    ensures WeightedPairs(d, ChangedKey) == KeysChangedBetween(before, after)
  {
    forall n, k
      ensures (n, k) in WeightedPairs(d, AddedKey) <==> (n, k) in KeysOnlyIn(after, before)
      ensures (n, k) in WeightedPairs(d, RemovedKey) <==> (n, k) in KeysOnlyIn(before, after)
      ensures (n, k) in WeightedPairs(d, ChangedKey) <==> (n, k) in KeysChangedBetween(before, after)
    {
      PairIs(d, before, after, n, k);
    }
  }

  /** Every counter is the number of names, or of names and keys, that only one side has or that both have differently. */
  lemma CountersCount(d: seq<Entry<SecretChange>>, before: Content, after: Content)
    requires ListsSecrets(d, before, after)
    ensures Total(d, AddedSecret) == |after.Keys - before.Keys|
    ensures Total(d, RemovedSecret) == |before.Keys - after.Keys|
    ensures Total(d, ChangedSecret) == |NamesChangedBetween(before, after)|
    ensures Total(d, KeysAddedIn) == |KeysOnlyIn(after, before)|
    ensures Total(d, KeysRemovedIn) == |KeysOnlyIn(before, after)|
    ensures Total(d, KeysChangedIn) == |KeysChangedBetween(before, after)|
  {
    NamesOf(d, before, after);
    CountedOnce(d, AddedSecret);
    CountedOnce(d, RemovedSecret);
    CountedOnce(d, ChangedSecret);
    PairsOf(d, before, after);
    PairsCountedOnce(d, AddedKey, KeysAddedIn);
    PairsCountedOnce(d, RemovedKey, KeysRemovedIn);
    PairsCountedOnce(d, ChangedKey, KeysChangedIn);
  }
}
