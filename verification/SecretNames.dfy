/** Validation of secret names and data, and single-key edits of the data (`model/Secret.ts`). */
module SecretNames {
  import opened JsStrings
  import opened Model

  const MAX_NAME_LENGTH := 200

  predicate IsAlphanumeric(c: CodeUnit) {
    'A' as CodeUnit <= c <= 'Z' as CodeUnit || 'a' as CodeUnit <= c <= 'z' as CodeUnit || '0' as CodeUnit <= c <= '9' as CodeUnit
  }

  /** `/^[A-Za-z0-9][A-Za-z0-9._-]*$/` */
  predicate IsValidName(name: JsString) {
    && name != [] && IsAlphanumeric(name[0])
    && forall c | c in name :: IsAlphanumeric(c) || c == '.' as CodeUnit || c == '_' as CodeUnit || c == '-' as CodeUnit
  }

  predicate HasKeys(data: Data) {
    forall e | e in data :: e.key != []
  }

  predicate Validate(name: JsString, data: Data) {
    IsValidName(name) && |name| <= MAX_NAME_LENGTH && HasKeys(data)
  }

  predicate IsLetterOrDigit(c: CodeUnit) {
    0x30 <= c <= 0x39 || 0x41 <= c <= 0x5A || 0x61 <= c <= 0x7A
  }

  /**
   * A name is refused exactly when it is empty, starts with a separator, or holds anything but letters, digits, `-`, `.`
   * and `_`. A new secret is refused for such a name, for one of more than 200 characters, and for an empty key.
   */
  lemma NameRefusedIff(name: JsString, data: Data)
    ensures Validate(name, data) <==> IsValidName(name) && |name| <= 200 && forall e | e in data :: e.key != []
    ensures !IsValidName(name) <==> name == [] || !IsLetterOrDigit(name[0]) || exists c :: c in name && !IsLetterOrDigit(c) && c !in {0x2D, 0x2E, 0x5F}
  {
    assert forall c: CodeUnit :: IsAlphanumeric(c) <==> IsLetterOrDigit(c);
  }

  /** `{ ...data, [key]: value }`: an existing key keeps its place, a new one goes last. */
  function WithKey(data: Data, key: JsString, value: JsString): Data {
    if exists e | e in data :: e.key == key then
      seq(|data|, i requires 0 <= i < |data| => if data[i].key == key then Entry(key, value) else data[i])
    else data + [Entry(key, value)]
  }

  /** Only the chosen key changes; every other key keeps its value. */
  lemma WithKeyChangesOneKey(data: Data, key: JsString, value: JsString)
    requires UniqueKeys(data)
    ensures UniqueKeys(WithKey(data, key, value))
    ensures MapOf(WithKey(data, key, value)) == MapOf(data)[key := value]
    ensures |data| <= |WithKey(data, key, value)| && forall i | 0 <= i < |data| :: WithKey(data, key, value)[i].key == data[i].key
  {
    WithKeyEntries(data, key, value);
    var r, m := WithKey(data, key, value), MapOf(data)[key := value];
    forall e ensures e in r <==> e.key in m && m[e.key] == e.value {
      assert e in data <==> e.key in MapOf(data) && MapOf(data)[e.key] == e.value;
    }
    EntriesDetermineMap(r, m);
  }

  lemma WithKeyEntries(data: Data, key: JsString, value: JsString)
    requires UniqueKeys(data)
    ensures UniqueKeys(WithKey(data, key, value))
    ensures forall e :: e in WithKey(data, key, value) <==> e == Entry(key, value) || (e in data && e.key != key)
  {
    var r := WithKey(data, key, value);
    assert forall i | 0 <= i < |data| :: r[i] == if data[i].key == key then Entry(key, value) else data[i];
    if exists e | e in data :: e.key == key {
      var k :| 0 <= k < |data| && data[k].key == key;
      assert r[k] == Entry(key, value);
    } else {
      assert forall i | 0 <= i < |data| :: data[i] in data;
      assert r[|data|] == Entry(key, value);
    }
    forall e | e in data && e.key != key ensures e in r {
      var i :| 0 <= i < |data| && data[i] == e;
      assert r[i] == e;
    }
  }
}
