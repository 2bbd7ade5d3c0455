/** The import undoes the export: two independent implementations, the server's printer and the web client's parser. */
module EnvRoundTrip {
  import opened JsStrings
  import opened Model
  import opened SecretEnv
  import opened SecretImport

  /** What an exported value comes back as. */
  function Recovered(value: JsString): JsString {
    if NeedsQuoting(value) then value else Trim(value)
  }

  function RecoveredRows(data: Data): (r: seq<Row>)
    ensures |r| == |data| && forall i | 0 <= i < |r| :: r[i] == Entry(data[i].key, Recovered(data[i].value))
  {
    seq(|data|, i requires 0 <= i < |data| => Entry(data[i].key, Recovered(data[i].value)))
  }

  /** An unquoted value whose first or last character `trim` strips; being unquoted, that character is not ASCII. */
  predicate EdgesAreTrimmed(value: JsString) {
    !NeedsQuoting(value) && (IsSpace(value[0]) || IsSpace(value[|value| - 1]))
  }

  predicate IsDigit(c: CodeUnit) {
    0x30 <= c <= 0x39
  }

  predicate IsLetterOrUnderscore(c: CodeUnit) {
    0x41 <= c <= 0x5A || c == 0x5F || 0x61 <= c <= 0x7A
  }

  /** Empty, starting with a digit, or with anything but ASCII letters, digits and underscores. */
  predicate IsRefusedKey(key: JsString) {
    key == [] || IsDigit(key[0]) || exists c | c in key :: !IsDigit(c) && !IsLetterOrUnderscore(c)
  }

  lemma RefusedKeyIff(key: JsString)
    ensures IsRefusedKey(key) <==> !IsEnvSafeKey(key)
  {
    assert forall c: CodeUnit :: IsKeyPart(c) <==> IsDigit(c) || IsLetterOrUnderscore(c);
    if key != [] {
      assert key[0] in key;
    }
  }

  /** The export fails exactly for a key that is not portable, and names all of them. */
  lemma ExportFailsIff(data: Data)
    ensures SecretDataToEnvContent(data).Err? <==> exists e :: e in data && IsRefusedKey(e.key)
    ensures SecretDataToEnvContent(data).Err? ==>
              forall k :: k in SecretDataToEnvContent(data).error <==> IsRefusedKey(k) && exists e :: e in data && e.key == k
  {
    forall k ensures IsRefusedKey(k) <==> !IsEnvSafeKey(k) {
      RefusedKeyIff(k);
    }
    var invalid := InvalidKeys(data);
    if invalid != [] {
      assert invalid[0] in invalid;
    }
  }

  /** The positions, counted from `first`, of the keys that fail. */
  function FailingAt(safe: JsString -> bool, data: Data, first: nat): seq<nat> {
    if data == [] then []
    else if safe(data[0].key) then FailingAt(safe, data[1..], first + 1)
    else [first] + FailingAt(safe, data[1..], first + 1)
  }

  lemma {:induction false} FailingAtIncreases(safe: JsString -> bool, data: Data, first: nat)
    ensures forall i | 0 <= i < |FailingAt(safe, data, first)| :: first <= FailingAt(safe, data, first)[i] < first + |data|
    ensures forall i, j | 0 <= i < j < |FailingAt(safe, data, first)| :: FailingAt(safe, data, first)[i] < FailingAt(safe, data, first)[j]
  {
    if data != [] {
      FailingAtIncreases(safe, data[1..], first + 1);
    }
  }

  lemma {:induction false} FailingAtCount(safe: JsString -> bool, data: Data, first: nat)
    ensures |Failing(safe, data)| == |FailingAt(safe, data, first)|
  {
    if data != [] {
      FailingAtCount(safe, data[1..], first + 1);
    }
  }

  lemma {:induction false} FailingAtSelects(safe: JsString -> bool, data: Data, first: nat, i: nat)
    requires i < |FailingAt(safe, data, first)| && i < |Failing(safe, data)|
    ensures first <= FailingAt(safe, data, first)[i] < first + |data|
    ensures Failing(safe, data)[i] == data[FailingAt(safe, data, first)[i] - first].key
  {
    var rest := data[1..];
    if safe(data[0].key) {
      FailingAtSelects(safe, rest, first + 1, i);
    } else if i > 0 {
      FailingAtSelects(safe, rest, first + 1, i - 1);
    }
  }

  /** `named` are the keys of `data` that fail, each at its turn. */
  ghost predicate NamesFailing(safe: JsString -> bool, data: Data, named: seq<JsString>, at: seq<nat>) {
    && |named| == |at|
    && (forall i | 0 <= i < |at| :: at[i] < |data| && named[i] == data[at[i]].key)
    && (forall i, j | 0 <= i < j < |at| :: at[i] < at[j])
    && (forall n: nat | n < |data| :: n in at <==> !safe(data[n].key))
  }

  lemma FailingAreNamed(safe: JsString -> bool, data: Data, first: nat)
    requires first == 0
    ensures NamesFailing(safe, data, Failing(safe, data), FailingAt(safe, data, first))
  {
    FailingAtCount(safe, data, first);
    FailingAtIncreases(safe, data, first);
    forall i: nat | i < |FailingAt(safe, data, first)| ensures Failing(safe, data)[i] == data[FailingAt(safe, data, first)[i]].key {
      FailingAtSelects(safe, data, first, i);
    }
    forall n: nat | n < |data| ensures n in FailingAt(safe, data, first) <==> !safe(data[n].key) {
      FailingAtMissesNone(safe, data, first, n);
    }
  }

  lemma {:induction false} FailingAtMissesNone(safe: JsString -> bool, data: Data, first: nat, n: nat)
    requires n < |data|
    ensures first + n in FailingAt(safe, data, first) <==> !safe(data[n].key)
  {
    FailingAtIncreases(safe, data[1..], first + 1);
    assert first !in FailingAt(safe, data[1..], first + 1);
    if n > 0 {
      assert data[1..][n - 1] == data[n];
      FailingAtMissesNone(safe, data[1..], first + 1, n - 1);
    }
  }

  /** The keys a failed export names are the keys that are not portable, each at its turn: none missing, added, repeated or moved. */
  lemma NamedKeysInOrder(data: Data)
    requires SecretDataToEnvContent(data).Err?
    ensures NamesFailing(IsEnvSafeKey, data, SecretDataToEnvContent(data).error, FailingAt(IsEnvSafeKey, data, 0))
  {
    FailingAreNamed(IsEnvSafeKey, data, 0);
  }

  /** Every export imports back to the same keys in the same order, without a warning. */
  lemma ExportImportsBack(data: Data)
    requires data != [] && UniqueKeys(data) && SecretDataToEnvContent(data).Ok?
    ensures Imported(SecretDataToEnvContent(data).value) == Env(Ok(Rows(RecoveredRows(data), [])))
  {
    var lines := PrintedLines(data);
    var text := Joined(lines) + [LF];
    AllKeysSafe(data);
    forall l | l in lines ensures LF !in l && CR !in l {
      var i :| 0 <= i < |lines| && lines[i] == l;
      PrintedLineIsOneLine(data[i]);
    }
    SplitJoined(lines);
    ReadPrintedLines(data);
    assert (lines + [[]])[..|lines|] == lines;
    assert ReadLine([]) == Skipped;
    JoinedStarts(lines);
    assert text[0] == data[0].key[0];
    SafeKeyIsVisible(data[0].key);
    TrimKeepsFirst(text);
  }

  /**
   * The round trip is exact, value by value, exactly when no unquoted value starts or ends with a character that `trim`
   * strips.
   */
  lemma ExportRoundTripsIff(data: Data)
    requires data != [] && UniqueKeys(data) && SecretDataToEnvContent(data).Ok?
    ensures Imported(SecretDataToEnvContent(data).value) == Env(Ok(Rows(data, [])))
       <==> forall e :: e in data ==> !EdgesAreTrimmed(e.value)
  {
    ExportImportsBack(data);
    AllRecoveredIff(data);
  }

  lemma RecoveredIff(value: JsString)
    ensures Recovered(value) == value <==> !EdgesAreTrimmed(value)
  {
    if !NeedsQuoting(value) {
      TrimIsIdentityIff(value);
    }
  }

  lemma AllRecoveredIff(data: Data)
    ensures RecoveredRows(data) == data <==> forall e :: e in data ==> !EdgesAreTrimmed(e.value)
  {
    forall i | 0 <= i < |data| ensures RecoveredRows(data)[i] == data[i] <==> !EdgesAreTrimmed(data[i].value) {
      RecoveredIff(data[i].value);
    }
    if RecoveredRows(data) != data {
      var i :| 0 <= i < |data| && RecoveredRows(data)[i] != data[i];
      assert data[i] in data;
    }
  }

  /** A value that starts with a no-break space: exported without quotes, imported without the space. */
  lemma NoBreakSpaceIsLost()
    ensures var data: Data := [Entry(['A' as CodeUnit], [0xA0, 'a' as CodeUnit])];
            && SecretDataToEnvContent(data).Ok?
            && Imported(SecretDataToEnvContent(data).value) == Env(Ok(Rows([Entry(['A' as CodeUnit], ['a' as CodeUnit])], [])))
  {
    OneValueImportsBack(['A' as CodeUnit], [0xA0, 'a' as CodeUnit]);
    NoBreakSpaceIsTrimmed([0xA0, 'a' as CodeUnit]);
  }

  lemma OneValueImportsBack(key: JsString, value: JsString)
    requires IsEnvSafeKey(key)
    ensures SecretDataToEnvContent([Entry(key, value)]).Ok?
    ensures Imported(SecretDataToEnvContent([Entry(key, value)]).value) == Env(Ok(Rows([Entry(key, Recovered(value))], [])))
  {
    var data: Data := [Entry(key, value)];
    ExportFailsIff(data);
    ExportImportsBack(data);
    assert RecoveredRows(data) == [Entry(key, Recovered(value))];
  }

  lemma NoBreakSpaceIsTrimmed(value: JsString)
    requires value == [0xA0, 'a' as CodeUnit]
    ensures Recovered(value) == ['a' as CodeUnit]
  {
    assert value == [0xA0] + ['a' as CodeUnit];
    LeadingSpaceIsLost(0xA0, 'a' as CodeUnit);
  }

  /** A space that the export leaves bare in front of a visible character. */
  lemma LeadingSpaceIsLost(space: CodeUnit, c: CodeUnit)
    requires IsSpace(space) && IsPlain(space) && IsPlain(c) && !IsSpace(c)
    ensures Recovered([space] + [c]) == [c]
  {
    var value := [space] + [c];
    assert value[1..] == [c];
    assert TrimStart(value) == [c];
    TrimEndOfOne(c);
    assert !NeedsQuoting(value);
  }

  /** ASCII values always come back unchanged. */
  lemma AsciiRoundTrips(data: Data)
    requires data != [] && UniqueKeys(data) && SecretDataToEnvContent(data).Ok?
    requires forall e | e in data :: forall c | c in e.value :: c < 0x80
    ensures Imported(SecretDataToEnvContent(data).value) == Env(Ok(Rows(data, [])))
  {
    forall e | e in data ensures !EdgesAreTrimmed(e.value) {
      if !NeedsQuoting(e.value) {
        assert e.value[0] in e.value && e.value[|e.value| - 1] in e.value;
      }
    }
    ExportRoundTripsIff(data);
  }

  // ---- Trimming ----

  lemma {:induction false} TrimIsIdentityIff(v: JsString)
    requires v != []
    ensures Trim(v) == v <==> !IsSpace(v[0]) && !IsSpace(v[|v| - 1])
  {
  }

  lemma {:induction false} TrimKeepsFirst(s: JsString)
    requires s != [] && !IsSpace(s[0])
    ensures Trim(s) != [] && Trim(s)[0] == s[0]
  {
    TrimEndKeepsFirst(s);
  }

  lemma {:induction false} TrimEndKeepsFirst(s: JsString)
    requires s != [] && !IsSpace(s[0])
    ensures TrimEnd(s) != []
  {
    if IsSpace(s[|s| - 1]) {
      TrimEndKeepsFirst(s[..|s| - 1]);
    }
  }

  lemma {:induction false} TrimEndStops(a: JsString, v: JsString)
    requires a != [] && !IsSpace(a[|a| - 1])
    ensures TrimEnd(a + v) == a + TrimEnd(v)
  {
    if v == [] {
      assert a + v == a;
    } else {
      assert (a + v)[..|a + v| - 1] == a + v[..|v| - 1];
      if IsSpace(v[|v| - 1]) {
        TrimEndStops(a, v[..|v| - 1]);
      }
    }
  }

  lemma TrimEndOfOne(c: CodeUnit)
    ensures TrimEnd([c]) == if IsSpace(c) then [] else [c]
  {
    assert [c][..0] == [];
  }

  lemma {:induction false} TrimEndPrefixed(c: CodeUnit, w: JsString)
    ensures TrimEnd([c] + w) == if TrimEnd(w) != [] then [c] + TrimEnd(w) else if IsSpace(c) then [] else [c]
  {
    if w == [] {
      assert [c] + w == [c];
      TrimEndOfOne(c);
    } else {
      var init := w[..|w| - 1];
      assert ([c] + w)[..|w|] == [c] + init && ([c] + w)[|w|] == w[|w| - 1];
      if IsSpace(w[|w| - 1]) {
        TrimEndPrefixed(c, init);
        assert TrimEnd([c] + w) == TrimEnd([c] + init) && TrimEnd(w) == TrimEnd(init);
      }
    }
  }

  lemma {:induction false} TrimSidesCommute(v: JsString)
    ensures TrimStart(TrimEnd(v)) == TrimEnd(TrimStart(v))
  {
    if v != [] && IsSpace(v[0]) {
      assert v == [v[0]] + v[1..];
      TrimEndPrefixed(v[0], v[1..]);
      TrimSidesCommute(v[1..]);
      if TrimEnd(v[1..]) != [] {
        assert ([v[0]] + TrimEnd(v[1..]))[1..] == TrimEnd(v[1..]);
      }
    } else if v != [] {
      TrimEndKeepsFirst(v);
    }
  }

  lemma TrimAfterTrimEnd(v: JsString)
    ensures Trim(TrimEnd(v)) == Trim(v)
  {
    TrimSidesCommute(v);
    assert TrimEnd(Trim(v)) == Trim(v);
  }

  // ---- Escapes ----

  lemma HexDigitReads(d: nat)
    requires d < 16
    ensures IsHexDigit(HexDigit(d)) && HexValue(HexDigit(d)) == d
  {
  }

  lemma PadOneDigit(d: CodeUnit, zero: CodeUnit, width: nat)
    requires width == 4
    ensures PadStart([d], width, zero) == [zero, zero, zero, d]
  {
    assert [zero] + [d] == [zero, d] && [zero] + [zero, d] == [zero, zero, d] && [zero] + [zero, zero, d] == [zero, zero, zero, d];
    assert PadStart([zero, zero, d], width, zero) == PadStart([zero, zero, zero, d], width, zero);
    assert PadStart([zero, d], width, zero) == PadStart([zero, zero, d], width, zero);
  }

  lemma PadTwoDigits(hi: CodeUnit, lo: CodeUnit, zero: CodeUnit, width: nat)
    requires width == 4
    ensures PadStart([hi, lo], width, zero) == [zero, zero, hi, lo]
  {
    assert [zero] + [hi, lo] == [zero, hi, lo] && [zero] + [zero, hi, lo] == [zero, zero, hi, lo];
    assert PadStart([zero, hi, lo], width, zero) == PadStart([zero, zero, hi, lo], width, zero);
  }

  lemma HexOfByte(c: CodeUnit)
    requires c <= 0xFF
    ensures PadStart(ToHex(c as nat), 4, '0' as CodeUnit)
         == ['0' as CodeUnit, '0' as CodeUnit, HexDigit(c as nat / 16), HexDigit(c as nat % 16)]
  {
    if c < 16 {
      assert c as nat / 16 == 0 && c as nat % 16 == c as nat && HexDigit(0) == '0' as CodeUnit;
      PadOneDigit(HexDigit(c as nat), '0' as CodeUnit, 4);
    } else {
      var hi, lo := HexDigit(c as nat / 16), HexDigit(c as nat % 16);
      assert ToHex(c as nat) == [hi] + [lo] == [hi, lo];
      PadTwoDigits(hi, lo, '0' as CodeUnit, 4);
    }
  }

  lemma UnicodeEscapeReads(c: CodeUnit, rest: JsString)
    requires c <= 0xFF
    ensures var s := [BACKSLASH, 'u' as CodeUnit] + PadStart(ToHex(c as nat), 4, '0' as CodeUnit) + rest;
            UnescapeDoubleQuoted(s) == [c] + UnescapeDoubleQuoted(rest)
  {
    HexOfByte(c);
    HexDigitReads(c as nat / 16);
    HexDigitReads(c as nat % 16);
    var s := [BACKSLASH, 'u' as CodeUnit] + PadStart(ToHex(c as nat), 4, '0' as CodeUnit) + rest;
    assert s[2] == '0' as CodeUnit && s[3] == '0' as CodeUnit && s[4] == HexDigit(c as nat / 16) && s[5] == HexDigit(c as nat % 16);
    assert IsUnicodeEscape(s) && FromUnicodeEscape(s) == c && s[6..] == rest;
  }

  lemma UnescapeUnit(c: CodeUnit, rest: JsString)
    ensures UnescapeDoubleQuoted(EscapedUnit(c) + rest) == [c] + UnescapeDoubleQuoted(rest)
  {
    var s := EscapedUnit(c) + rest;
    if c == BACKSLASH || c == DQUOTE || c == LF || c == CR || c == TAB {
      assert s[0] == BACKSLASH && s[1] == EscapedUnit(c)[1] && s[2..] == rest;
      assert Unescaped(s[1]) == [c];
    } else if c <= 0x1F || c == 0x7F {
      UnicodeEscapeReads(c, rest);
    } else {
      assert s[0] == c && s[1..] == rest;
    }
  }

  /** Unescaping undoes escaping, for every string. */
  lemma {:induction false} UnescapeUndoesEscape(v: JsString)
    ensures UnescapeDoubleQuoted(Escaped(v)) == v
  {
    if v != [] {
      FlatMapPrefixed(EscapedUnit, v[0], v[1..]);
      UnescapeUnit(v[0], Escaped(v[1..]));
      UnescapeUndoesEscape(v[1..]);
      assert v == [v[0]] + v[1..];
    }
  }

  /** A value is written without quotes exactly when it is not empty and holds only visible characters other than `"`, `'`, `\`, `#`, `=`. */
  lemma PrintedBareIff(value: JsString)
    ensures PrintedValue(value) == value <==>
              value != [] && forall c | c in value :: c > 0x20 && c != 0x7F && c !in {0x22, 0x27, 0x5C, 0x23, 0x3D}
  {
    FlatMapIsNotShorter(value);
    assert NeedsQuoting(value) ==> |PrintedValue(value)| > |value|;
    assert forall c: CodeUnit :: IsPlain(c) <==> c > 0x20 && c != 0x7F && c !in {0x22, 0x27, 0x5C, 0x23, 0x3D};
  }

  lemma {:induction false} FlatMapIsNotShorter(v: JsString)
    ensures |FlatMap(EscapedUnit, v)| >= |v|
  {
    if v != [] {
      FlatMapIsNotShorter(v[..|v| - 1]);
    }
  }

  /** The short escapes that are written: line feed, carriage return, tabulator, quote and backslash. */
  lemma ShortEscapes()
    ensures EscapedUnit(0x0A) == [0x5C, 0x6E] && EscapedUnit(0x0D) == [0x5C, 0x72] && EscapedUnit(0x09) == [0x5C, 0x74]
    ensures EscapedUnit(0x22) == [0x5C, 0x22] && EscapedUnit(0x5C) == [0x5C, 0x5C]
  {
  }

  /** What a double-quoted value reads as after a backslash; an unknown escape stays as it is. */
  lemma EscapesReadAs(c: CodeUnit, rest: JsString)
    requires !IsLineTerminator(c) && !IsUnicodeEscape([BACKSLASH, c] + rest)
    ensures UnescapeDoubleQuoted([BACKSLASH, c] + rest)
         == (if c == 0x6E then [0x0A] else if c == 0x72 then [0x0D] else if c == 0x74 then [0x09]
             else if c == 0x22 || c == 0x5C then [c] else [0x5C, c]) + UnescapeDoubleQuoted(rest)
  {
    var s := [BACKSLASH, c] + rest;
    assert s[0] == BACKSLASH && s[1] == c && s[2..] == rest;
  }

  predicate IsHexUnit(c: CodeUnit) {
    0x30 <= c <= 0x39 || 0x41 <= c <= 0x46 || 0x61 <= c <= 0x66
  }

  function HexUnit(c: CodeUnit): nat
    requires IsHexUnit(c)
  {
    if c <= 0x39 then c as nat - 0x30 else if c <= 0x46 then c as nat - 0x37 else c as nat - 0x57
  }

  lemma HexUnitReads(c: CodeUnit)
    ensures IsHexUnit(c) <==> IsHexDigit(c)
    ensures IsHexUnit(c) ==> HexUnit(c) == HexValue(c) < 16
  {
  }

  function UnicodeEscape(a: CodeUnit, b: CodeUnit, c: CodeUnit, d: CodeUnit): JsString {
    [0x5C, 0x75, a, b, c, d]
  }

  lemma UnicodeEscapeStarts(a: CodeUnit, b: CodeUnit, c: CodeUnit, d: CodeUnit, rest: JsString)
    requires IsHexDigit(a) && IsHexDigit(b) && IsHexDigit(c) && IsHexDigit(d)
    ensures var s := UnicodeEscape(a, b, c, d) + rest;
            IsUnicodeEscape(s) && s[2] == a && s[3] == b && s[4] == c && s[5] == d && s[6..] == rest
  {
  }

  /** A unicode escape reads as the code unit its four hexadecimal digits spell, in either case. */
  lemma UnicodeEscapesReadAs(a: CodeUnit, b: CodeUnit, c: CodeUnit, d: CodeUnit, rest: JsString)
    requires IsHexUnit(a) && IsHexUnit(b) && IsHexUnit(c) && IsHexUnit(d)
    ensures HexUnit(a) < 16 && HexUnit(b) < 16 && HexUnit(c) < 16 && HexUnit(d) < 16
    ensures UnescapeDoubleQuoted(UnicodeEscape(a, b, c, d) + rest)
         == [(HexUnit(a) * 4096 + HexUnit(b) * 256 + HexUnit(c) * 16 + HexUnit(d)) as CodeUnit] + UnescapeDoubleQuoted(rest)
  {
    HexUnitReads(a);
    HexUnitReads(b);
    HexUnitReads(c);
    HexUnitReads(d);
    UnicodeEscapeStarts(a, b, c, d, rest);
    var s := UnicodeEscape(a, b, c, d) + rest;
    assert UnescapeDoubleQuoted(s) == [FromUnicodeEscape(s)] + UnescapeDoubleQuoted(s[6..]);
  }

  /** An exported file is one line per key, each ended by a line feed; nothing for an empty map. */
  lemma ExportIsOneLinePerKey(data: Data)
    requires SecretDataToEnvContent(data).Ok?
    ensures data == [] ==> SecretDataToEnvContent(data).value == []
    ensures data != [] ==>
              && SplitLines(SecretDataToEnvContent(data).value) == PrintedLines(data) + [[]]
              && LF == SecretDataToEnvContent(data).value[|SecretDataToEnvContent(data).value| - 1]
  {
    if data != [] {
      var lines := PrintedLines(data);
      AllKeysSafe(data);
      forall l | l in lines ensures LF !in l && CR !in l {
        var i :| 0 <= i < |lines| && lines[i] == l;
        PrintedLineIsOneLine(data[i]);
      }
      SplitJoined(lines);
    }
  }

  // ---- Printed lines ----

  lemma AllKeysSafe(data: Data)
    requires InvalidKeys(data) == []
    ensures forall e | e in data :: IsEnvSafeKey(e.key)
  {
    forall e | e in data ensures IsEnvSafeKey(e.key) {
      assert e.key !in InvalidKeys(data);
    }
  }

  /** Neither spaces nor separators. */
  predicate IsVisible(c: CodeUnit) {
    !IsSpace(c) && c != EQUALS && c != HASH
  }

  lemma SafeKeyIsVisible(key: JsString)
    requires IsEnvSafeKey(key)
    ensures forall c | c in key :: IsVisible(c)
  {
  }

  predicate IsControl(c: CodeUnit) {
    c <= 0x1F || c == 0x7F
  }

  lemma EscapedUnitIsPrintable(c: CodeUnit)
    ensures forall x | x in EscapedUnit(c) :: !IsControl(x)
  {
    if IsControl(c) {
      HexOfByte(c);
    }
  }

  lemma {:induction false} FlatMapIsPrintable(v: JsString)
    ensures forall x | x in FlatMap(EscapedUnit, v) :: !IsControl(x)
  {
    if v != [] {
      FlatMapIsPrintable(v[..|v| - 1]);
      EscapedUnitIsPrintable(v[|v| - 1]);
    }
  }

  /** No control character is ever written into a value, quoted or not. */
  lemma PrintedValueIsPrintable(value: JsString)
    ensures forall x | x in PrintedValue(value) :: !IsControl(x)
  {
    FlatMapIsPrintable(value);
  }

  lemma PrintedLineIsOneLine(e: Entry<JsString>)
    requires IsEnvSafeKey(e.key)
    ensures LF !in PrintedLine(e) && CR !in PrintedLine(e)
  {
    SafeKeyIsVisible(e.key);
    PrintedValueIsPrintable(e.value);
  }

  lemma {:induction false} SplitFirstLine(line: JsString, rest: JsString)
    requires LF !in line && CR !in line
    ensures SplitLines(line + [LF] + rest) == [line] + SplitLines(rest)
  {
    var text := line + [LF] + rest;
    if line == [] {
      assert text[0] == LF && text[1..] == rest;
    } else {
      assert text[0] == line[0] && line[0] in line && text[1..] == line[1..] + [LF] + rest;
      SplitFirstLine(line[1..], rest);
      assert [line[0]] + line[1..] == line;
    }
  }

  lemma {:induction false} SplitJoined(lines: seq<JsString>)
    requires lines != [] && forall l | l in lines :: LF !in l && CR !in l
    ensures SplitLines(Joined(lines) + [LF]) == lines + [[]]
  {
    assert lines[0] in lines;
    if |lines| == 1 {
      assert lines[0] + [LF] + [] == Joined(lines) + [LF];
      SplitFirstLine(lines[0], []);
    } else {
      assert Joined(lines) + [LF] == lines[0] + [LF] + (Joined(lines[1..]) + [LF]);
      SplitFirstLine(lines[0], Joined(lines[1..]) + [LF]);
      SplitJoined(lines[1..]);
    }
  }

  lemma JoinedStarts(lines: seq<JsString>)
    requires lines != []
    ensures lines[0] <= Joined(lines)
  {
  }

  lemma {:induction false} KeyEnds(key: JsString, rest: JsString)
    requires forall c | c in key :: IsVisible(c)
    ensures IndexOf(key + [EQUALS] + rest, EQUALS) == |key|
  {
    var line := key + [EQUALS] + rest;
    if key == [] {
      assert line[0] == EQUALS;
    } else {
      assert key[0] in key && line[0] == key[0];
      assert line[1..] == key[1..] + [EQUALS] + rest;
      KeyEnds(key[1..], rest);
    }
  }

  lemma ExportPrefixHasNoEquals(i: nat)
    requires i < |EXPORT|
    ensures EXPORT[i] != EQUALS && (i == 6 <==> EXPORT[i] == 0x20)
  {
  }

  lemma NoExportPrefix(key: JsString, rest: JsString)
    requires forall c | c in key :: IsVisible(c)
    ensures WithoutExport(key + [EQUALS] + rest) == key + [EQUALS] + rest
  {
    var line := key + [EQUALS] + rest;
    var i := if |key| <= 6 then |key| else 6;
    ExportPrefixHasNoEquals(i);
    if |key| <= 6 {
      assert line[i] == EQUALS;
    } else {
      assert line[i] == key[i] && key[i] in key;
    }
    assert line[i] != EXPORT[i];
    assert !StartsWith(line, EXPORT);
  }

  lemma TrimmedKey(key: JsString)
    requires IsEnvSafeKey(key)
    ensures Trim(key) == key
  {
    SafeKeyIsVisible(key);
    assert key[0] in key && key[|key| - 1] in key;
    TrimIsIdentityIff(key);
  }

  lemma ReadAssignmentOf(key: JsString, rest: JsString)
    requires IsEnvSafeKey(key)
    ensures ReadAssignment(key + [EQUALS] + rest) == Assignment(key, ReadValue(Trim(rest)))
  {
    var line := key + [EQUALS] + rest;
    SafeKeyIsVisible(key);
    KeyEnds(key, rest);
    TrimmedKey(key);
    assert line[..|key|] == key && line[|key| + 1..] == rest;
  }

  lemma ReadLineOf(key: JsString, printed: JsString)
    requires IsEnvSafeKey(key)
    ensures ReadLine(key + [EQUALS] + printed) == Assignment(key, ReadValue(Trim(printed)))
  {
    SafeKeyIsVisible(key);
    var line := key + [EQUALS] + printed;
    assert key[0] in key && line[0] == key[0];
    TrimEndStops(key + [EQUALS], printed);
    assert Trim(line) == key + [EQUALS] + TrimEnd(printed);
    NoExportPrefix(key, TrimEnd(printed));
    ReadAssignmentOf(key, TrimEnd(printed));
    TrimAfterTrimEnd(printed);
  }

  lemma TrimWrapped(quote: CodeUnit, inner: JsString)
    requires !IsSpace(quote)
    ensures Trim([quote] + inner + [quote]) == [quote] + inner + [quote]
  {
    var printed := [quote] + inner + [quote];
    assert printed[0] == quote && printed[|printed| - 1] == quote;
    TrimIsIdentityIff(printed);
  }

  lemma ReadWrapped(inner: JsString)
    ensures ReadValue([DQUOTE] + inner + [DQUOTE]) == UnescapeDoubleQuoted(inner)
  {
    var printed := [DQUOTE] + inner + [DQUOTE];
    assert printed[0] == DQUOTE && printed[|printed| - 1] == DQUOTE && printed[1..|printed| - 1] == inner;
  }

  lemma ReadPlainValue(value: JsString)
    requires !NeedsQuoting(value)
    ensures ReadValue(Trim(value)) == Trim(value)
  {
    TrimKeepsElements(value);
    if Trim(value) != [] {
      assert Trim(value)[0] in value;
    }
  }

  lemma ReadPrintedValue(value: JsString)
    ensures ReadValue(Trim(PrintedValue(value))) == Recovered(value)
  {
    if NeedsQuoting(value) {
      TrimWrapped(DQUOTE, Escaped(value));
      ReadWrapped(Escaped(value));
      UnescapeUndoesEscape(value);
    } else {
      ReadPlainValue(value);
    }
  }

  lemma TrimKeepsElements(v: JsString)
    ensures forall c | c in Trim(v) :: c in v
  {
  }

  lemma ReadPrintedLine(e: Entry<JsString>)
    requires IsEnvSafeKey(e.key)
    ensures ReadLine(PrintedLine(e)) == Assignment(e.key, Recovered(e.value))
  {
    ReadLineOf(e.key, PrintedValue(e.value));
    ReadPrintedValue(e.value);
  }

  lemma {:induction false} ReadPrintedLines(data: Data)
    requires UniqueKeys(data) && forall e | e in data :: IsEnvSafeKey(e.key)
    ensures ReadLines(ReadLine, PrintedLines(data)) == Ok(Rows(RecoveredRows(data), []))
  {
    if data != [] {
      var init, last := data[..|data| - 1], data[|data| - 1];
      assert last in data && data == init + [last] && forall e | e in init :: e in data;
      ReadPrintedLines(init);
      ReadOneMore(init, last);
    }
  }

  lemma ReadOneMore(init: Data, last: Entry<JsString>)
    requires UniqueKeys(init + [last]) && IsEnvSafeKey(last.key)
    requires ReadLines(ReadLine, PrintedLines(init)) == Ok(Rows(RecoveredRows(init), []))
    ensures ReadLines(ReadLine, PrintedLines(init + [last])) == Ok(Rows(RecoveredRows(init + [last]), []))
  {
    var lines, n := PrintedLines(init + [last]), |init|;
    assert lines[..n] == PrintedLines(init) && lines[..n + 1] == lines && lines[n] == PrintedLine(last);
    ReadLinesStep(ReadLine, lines, n, Rows(RecoveredRows(init), []));
    ReadPrintedLine(last);
    AppendedRow(init, last);
  }

  lemma AppendedRow(init: Data, last: Entry<JsString>)
    requires UniqueKeys(init + [last])
    ensures WithRow(Rows(RecoveredRows(init), []), last.key, Recovered(last.value)) == Rows(RecoveredRows(init + [last]), [])
  {
    forall r | r in RecoveredRows(init) ensures r.key != last.key {
      var i :| 0 <= i < |init| && RecoveredRows(init)[i] == r;
      assert (init + [last])[i] == init[i] && (init + [last])[|init|] == last;
    }
    assert RecoveredRows(init + [last]) == RecoveredRows(init) + [Entry(last.key, Recovered(last.value))];
  }
}
