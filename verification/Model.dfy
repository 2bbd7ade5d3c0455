/** The data model: secrets as own-key maps in insertion order, content digests and project rows. */
module Model {
  import opened JsStrings
  import opened Sorting

  datatype Option<+T> = None | Some(value: T)

  datatype Result<+T, +E> = Ok(value: T) | Err(error: E)

  datatype Entry<+V> = Entry(key: JsString, value: V)

  /** The `data` of a secret: its own keys in insertion order. */
  type Data = seq<Entry<JsString>>

  datatype Secret = Secret(name: JsString, data: Data)

  type ProjectId = JsString
  type SecretId = JsString
  type SnapshotId = JsString

  /** SHA-256 of a serialized list of named maps, taken to be injective: the digest carries what was hashed. */
  datatype Digest = Sha256(hashed: seq<Entry<Data>>)

  /** The synchronization columns of a project row; an empty column is `None`. */
  datatype Project = Project(
    lastSyncSnapshotId: Option<SnapshotId>,
    lastSyncSnapshotTime: Option<int>,
    lastSyncContentHash: Option<Digest>,
    currentContentHash: Option<Digest>)

  /** What a list of secrets holds, whatever the order of its secrets and keys. */
  type Content = map<JsString, map<JsString, JsString>>

  ghost predicate UniqueKeys<V>(s: seq<Entry<V>>) {
    forall i, j | 0 <= i < j < |s| :: s[i].key != s[j].key
  }

  function ValueOf<V>(s: seq<Entry<V>>, k: JsString): (v: V)
    requires exists e | e in s :: e.key == k
    ensures Entry(k, v) in s
  {
    if s[0].key == k then s[0].value else ValueOf(s[1..], k)
  }

  ghost predicate Maps<V>(m: map<JsString, V>, s: seq<Entry<V>>) {
    && (forall e | e in s :: e.key in m && m[e.key] == e.value)
    && (forall k | k in m :: Entry(k, m[k]) in s)
  }

  lemma MapExists<V>(s: seq<Entry<V>>)
    requires UniqueKeys(s)
    ensures exists m :: Maps(m, s)
  {
    var m := map k | k in (set e | e in s :: e.key) :: ValueOf(s, k);
    assert Maps(m, s);
  }

  /** The map a list of entries spells. */
  ghost function MapOf<V>(s: seq<Entry<V>>): (m: map<JsString, V>)
    requires UniqueKeys(s)
    ensures forall e | e in s :: e.key in m && m[e.key] == e.value
    ensures forall k | k in m :: Entry(k, m[k]) in s
  {
    MapExists(s);
    var m :| Maps(m, s);
    m
  }

  lemma EntriesDetermineMap<V>(s: seq<Entry<V>>, m: map<JsString, V>)
    requires UniqueKeys(s)
    requires forall e :: e in s <==> e.key in m && m[e.key] == e.value
    ensures MapOf(s) == m
  {
    assert forall k | k in m :: Entry(k, m[k]) in s;
  }

  /** Names are unique in the list and keys are unique in each secret: what the database and JavaScript objects grant. */
  ghost predicate WellFormed(list: seq<Secret>) {
    && (forall i, j | 0 <= i < j < |list| :: list[i].name != list[j].name)
    && (forall s | s in list :: UniqueKeys(s.data))
  }

  function Named(list: seq<Secret>): (r: seq<Entry<Data>>)
    ensures |r| == |list|
    ensures forall i | 0 <= i < |r| :: r[i] == Entry(list[i].name, list[i].data)
  {
    seq(|list|, i requires 0 <= i < |list| => Entry(list[i].name, list[i].data))
  }

  ghost predicate Contains(c: Content, list: seq<Secret>)
    requires WellFormed(list)
  {
    && (forall s | s in list :: s.name in c && c[s.name] == MapOf(s.data))
    && (forall n | n in c :: exists s :: s in list && s.name == n)
  }

  lemma ContentExists(list: seq<Secret>)
    requires WellFormed(list)
    ensures exists c :: Contains(c, list)
  {
    assert forall s | s in list :: Entry(s.name, s.data) in Named(list) by {
      assert forall i | 0 <= i < |list| :: Named(list)[i] in Named(list);
    }
    var c := map n | n in MapOf(Named(list)) :: MapOf(MapOf(Named(list))[n]);
    assert Contains(c, list);
  }

  ghost function ContentOf(list: seq<Secret>): (c: Content)
    requires WellFormed(list)
    ensures forall s | s in list :: s.name in c && c[s.name] == MapOf(s.data)
    ensures forall n | n in c :: exists s :: s in list && s.name == n
  {
    ContentExists(list);
    var c :| Contains(c, list);
    c
  }

  lemma ContentHas(list: seq<Secret>, s: Secret)
    requires WellFormed(list) && s in list
    ensures s.name in ContentOf(list) && ContentOf(list)[s.name] == MapOf(s.data)
  {
  }

  lemma ContentComesFrom(list: seq<Secret>, n: JsString) returns (s: Secret)
    requires WellFormed(list) && n in ContentOf(list)
    ensures s in list && s.name == n && ContentOf(list)[n] == MapOf(s.data)
  {
    s :| s in list && s.name == n;
  }

  predicate KeyBefore<V>(x: Entry<V>, y: Entry<V>) {
    Less(x.key, y.key)
  }

  function SortByKey<V>(s: seq<Entry<V>>): seq<Entry<V>> {
    Sort(KeyBefore, s)
  }

  lemma KeyBeforeIsTotal<V(!new)>(s: seq<Entry<V>>)
    requires UniqueKeys(s)
    ensures StrictTotalOn<Entry<V>>(KeyBefore, s)
  {
    forall x, y | x in s && y in s
      ensures !(KeyBefore(x, y) && KeyBefore(y, x))
      ensures x == y || KeyBefore(x, y) || KeyBefore(y, x)
    {
      LessIsAsymmetric(x.key, y.key);
      LessIsConnected(x.key, y.key);
    }
    forall x, y, z | x in s && y in s && z in s && KeyBefore(x, y) && KeyBefore(y, z)
      ensures KeyBefore(x, z)
    {
      LessIsTransitive(x.key, y.key, z.key);
    }
  }

  lemma {:induction false} UniqueKeysOccurOnce<V>(s: seq<Entry<V>>, e: Entry<V>)
    requires UniqueKeys(s)
    ensures multiset(s)[e] == if e in s then 1 else 0
  {
    if s != [] {
      assert s == [s[0]] + s[1..];
      UniqueKeysOccurOnce(s[1..], e);
      assert s[0] !in s[1..] by {
        assert forall i | 0 <= i < |s[1..]| :: s[1..][i] == s[i + 1];
      }
    }
  }

  lemma UniqueKeysSurviveReordering<V>(a: seq<Entry<V>>, b: seq<Entry<V>>)
    requires UniqueKeys(a) && multiset(a) == multiset(b)
    ensures UniqueKeys(b)
  {
    SameElements(a, b);
    forall i, j | 0 <= i < j < |b| ensures b[i].key != b[j].key {
      if b[i].key == b[j].key {
        assert b[i] in a && b[j] in a;
        assert b[i] == b[j];
        assert b == b[..j] + [b[j]] + b[j + 1..];
        assert b[i] in b[..j];
        assert multiset(b)[b[j]] >= 2;
        UniqueKeysOccurOnce(a, b[j]);
      }
    }
  }

  /** Sorting by key is a normal form of the map: equal exactly when the maps are. */
  lemma SortedEntriesDetermineMap<V(!new)>(a: seq<Entry<V>>, b: seq<Entry<V>>)
    requires UniqueKeys(a) && UniqueKeys(b)
    ensures SortByKey(a) == SortByKey(b) <==> MapOf(a) == MapOf(b)
  {
    if SortByKey(a) == SortByKey(b) {
      SameElements(a, SortByKey(a));
      SameElements(b, SortByKey(b));
      assert MapOf(a) == MapOf(b);
    }
    if MapOf(a) == MapOf(b) {
      forall e ensures multiset(a)[e] == multiset(b)[e] {
        UniqueKeysOccurOnce(a, e);
        UniqueKeysOccurOnce(b, e);
        assert e in a <==> (e.key in MapOf(a) && MapOf(a)[e.key] == e.value);
        assert e in b <==> (e.key in MapOf(b) && MapOf(b)[e.key] == e.value);
      }
      assert multiset(a) == multiset(b);
      KeyBeforeIsTotal(a);
      SortForgetsOrder(KeyBefore, a, b);
    }
  }

  // ---- Sorted listings of a map ----

  ghost predicate IsListing<V(!new)>(s: seq<Entry<V>>, m: map<JsString, V>) {
    UniqueKeys(s) && SortedBy<Entry<V>>(KeyBefore, s) && MapOf(s) == m
  }

  lemma SortIsListing<V(!new)>(s: seq<Entry<V>>)
    requires UniqueKeys(s)
    ensures UniqueKeys(SortByKey(s)) && IsListing(SortByKey(s), MapOf(s))
  {
    KeyBeforeIsTotal(s);
    SortIsSorted(KeyBefore, s);
    UniqueKeysSurviveReordering(s, SortByKey(s));
    SameElements(s, SortByKey(s));
    EntriesDetermineMap(SortByKey(s), MapOf(s));
  }

  lemma ListingIsUnique<V(!new)>(a: seq<Entry<V>>, b: seq<Entry<V>>, m: map<JsString, V>)
    requires IsListing(a, m) && IsListing(b, m)
    ensures a == b
  {
    SortedEntriesDetermineMap(a, b);
    SortOfListing(a, m);
    SortOfListing(b, m);
  }

  lemma SortOfListing<V(!new)>(a: seq<Entry<V>>, m: map<JsString, V>)
    requires IsListing(a, m)
    ensures SortByKey(a) == a
  {
    KeyBeforeIsTotal(a);
    SortIsSorted(KeyBefore, a);
    SortedIsUnique(KeyBefore, a, SortByKey(a));
  }

  lemma {:induction false} SomeEntriesOf<V>(m: map<JsString, V>) returns (s: seq<Entry<V>>)
    ensures UniqueKeys(s) && MapOf(s) == m
    decreases |m|
  {
    if m == map[] {
      s := [];
    } else {
      var k :| k in m;
      var rest := SomeEntriesOf(m - {k});
      s := rest + [Entry(k, m[k])];
      forall i | 0 <= i < |rest| ensures rest[i].key != k {
        assert rest[i] in rest && rest[i].key in m - {k};
      }
      forall e ensures e in s <==> e.key in m && m[e.key] == e.value {
        assert e in rest <==> e.key in m - {k} && m[e.key] == e.value;
      }
      EntriesDetermineMap(s, m);
    }
  }

  /** The entries of a map in key order. */
  ghost function Listed<V(!new)>(m: map<JsString, V>): (s: seq<Entry<V>>)
    ensures IsListing(s, m)
  {
    ListingExists(m);
    var s :| IsListing(s, m);
    s
  }

  lemma ListingExists<V(!new)>(m: map<JsString, V>)
    ensures exists s :: IsListing(s, m)
  {
    var s := SomeEntriesOf(m);
    SortIsListing(s);
  }
}
