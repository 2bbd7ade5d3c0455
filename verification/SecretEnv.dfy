/** The `.env` export (`SecretEnv.ts`). */
module SecretEnv {
  import opened JsStrings
  import opened Model

  const TAB: CodeUnit := 0x09
  const LF: CodeUnit := 0x0A
  const CR: CodeUnit := 0x0D
  const DQUOTE := '"' as CodeUnit
  const SQUOTE := '\'' as CodeUnit
  const HASH := '#' as CodeUnit
  const EQUALS := '=' as CodeUnit
  const BACKSLASH := '\\' as CodeUnit

  predicate IsKeyStart(c: CodeUnit) {
    'A' as CodeUnit <= c <= 'Z' as CodeUnit || 'a' as CodeUnit <= c <= 'z' as CodeUnit || c == '_' as CodeUnit
  }

  predicate IsKeyPart(c: CodeUnit) {
    IsKeyStart(c) || '0' as CodeUnit <= c <= '9' as CodeUnit
  }

  /** `/^[A-Za-z_][A-Za-z0-9_]*$/` */
  predicate IsEnvSafeKey(key: JsString) {
    key != [] && IsKeyStart(key[0]) && forall c | c in key :: IsKeyPart(c)
  }

  predicate IsPlain(c: CodeUnit) {
    c > 0x20 && c != 0x7F && c !in {DQUOTE, SQUOTE, BACKSLASH, HASH, EQUALS}
  }

  predicate NeedsQuoting(value: JsString) {
    value == [] || exists c | c in value :: !IsPlain(c)
  }

  method ComputeNeedsQuoting(value: JsString) returns (r: bool)
    ensures r <==> NeedsQuoting(value)
  {
    if |value| == 0 {
      return true;
    }
    for i := 0 to |value|
      invariant forall k | 0 <= k < i :: IsPlain(value[k])
    {
      var code := value[i];
      assert value[i] in value;
      if code <= 0x20 || code == 0x7F {
        return true;
      }
      if code == DQUOTE || code == SQUOTE || code == BACKSLASH || code == HASH || code == EQUALS {
        return true;
      }
    }
    return false;
  }

  function HexDigit(d: nat): CodeUnit
    requires d < 16
  {
    if d < 10 then '0' as CodeUnit + d as CodeUnit else 'a' as CodeUnit + (d - 10) as CodeUnit
  }

  /** `toString(16)` */
  function ToHex(n: nat): JsString {
    if n < 16 then [HexDigit(n)] else ToHex(n / 16) + [HexDigit(n % 16)]
  }

  function PadStart(s: JsString, width: nat, pad: CodeUnit): JsString
    decreases width - |s|
  {
    if |s| >= width then s else PadStart([pad] + s, width, pad)
  }

  function EscapedUnit(c: CodeUnit): JsString {
    if c == BACKSLASH then [BACKSLASH, BACKSLASH]
    else if c == DQUOTE then [BACKSLASH, DQUOTE]
    else if c == LF then [BACKSLASH, 'n' as CodeUnit]
    else if c == CR then [BACKSLASH, 'r' as CodeUnit]
    else if c == TAB then [BACKSLASH, 't' as CodeUnit]
    else if c <= 0x1F || c == 0x7F then [BACKSLASH, 'u' as CodeUnit] + PadStart(ToHex(c as nat), 4, '0' as CodeUnit)
    else [c]
  }

  function Escaped(value: JsString): JsString {
    FlatMap(EscapedUnit, value)
  }

  /** What is written after the `=`. */
  function PrintedValue(value: JsString): JsString {
    if NeedsQuoting(value) then [DQUOTE] + Escaped(value) + [DQUOTE] else value
  }

  method EscapeEnvValue(value: JsString) returns (r: JsString)
    ensures r == PrintedValue(value)
  {
    var quoted := ComputeNeedsQuoting(value);
    if !quoted {
      return value;
    }
    var escaped: JsString := [];
    for i := 0 to |value|
      invariant escaped == Escaped(value[..i])
    {
      assert value[..i + 1][..i] == value[..i];
      var c := value[i];
      if c == BACKSLASH {
        escaped := escaped + [BACKSLASH, BACKSLASH];
      } else if c == DQUOTE {
        escaped := escaped + [BACKSLASH, DQUOTE];
      } else if c == LF {
        escaped := escaped + [BACKSLASH, 'n' as CodeUnit];
      } else if c == CR {
        escaped := escaped + [BACKSLASH, 'r' as CodeUnit];
      } else if c == TAB {
        escaped := escaped + [BACKSLASH, 't' as CodeUnit];
      } else if c <= 0x1F || c == 0x7F {
        escaped := escaped + ([BACKSLASH, 'u' as CodeUnit] + PadStart(ToHex(c as nat), 4, '0' as CodeUnit));
      } else {
        escaped := escaped + [c];
      }
    }
    assert value[..|value|] == value;
    return [DQUOTE] + escaped + [DQUOTE];
  }

  /** `keys.filter((key) => !safe(key))` */
  function Failing(safe: JsString -> bool, data: Data): seq<JsString> {
    if data == [] then []
    else if safe(data[0].key) then Failing(safe, data[1..])
    else [data[0].key] + Failing(safe, data[1..])
  }

  function InvalidKeys(data: Data): (r: seq<JsString>)
    ensures forall k :: k in r <==> !IsEnvSafeKey(k) && exists e | e in data :: e.key == k
  {
    FailingMembers(IsEnvSafeKey, data);
    Failing(IsEnvSafeKey, data)
  }

  lemma {:induction false} FailingMembers(safe: JsString -> bool, data: Data)
    ensures forall k :: k in Failing(safe, data) <==> !safe(k) && exists e | e in data :: e.key == k
  {
    if data != [] {
      FailingMembers(safe, data[1..]);
      assert data == [data[0]] + data[1..];
    }
  }

  function PrintedLine(e: Entry<JsString>): JsString {
    e.key + [EQUALS] + PrintedValue(e.value)
  }

  /** `lines.join("\n")` */
  function Joined(lines: seq<JsString>): JsString {
    if lines == [] then []
    else if |lines| == 1 then lines[0]
    else lines[0] + [LF] + Joined(lines[1..])
  }

  function PrintedLines(data: Data): (r: seq<JsString>)
    ensures |r| == |data| && forall i | 0 <= i < |r| :: r[i] == PrintedLine(data[i])
  {
    seq(|data|, i requires 0 <= i < |data| => PrintedLine(data[i]))
  }

  /** The exported file, or the keys that cannot be exported. */
  function SecretDataToEnvContent(data: Data): Result<JsString, seq<JsString>> {
    if InvalidKeys(data) != [] then Err(InvalidKeys(data))
    else if data == [] then Ok([])
    else Ok(Joined(PrintedLines(data)) + [LF])
  }
}
