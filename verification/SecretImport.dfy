/** The import of pasted `.env` text (`secret-import.ts`). JSON text is handed over unparsed. */
module SecretImport {
  import opened JsStrings
  import opened Model
  import opened SecretEnv

  /** A row `{ key, value }`. */
  type Row = Entry<JsString>

  /** Parsed rows; `duplicates` are the keys a warning names, in order. */
  datatype Rows = Rows(rows: seq<Row>, duplicates: seq<JsString>)

  datatype LineError = NoEquals | EmptyKey | InvalidKey(key: JsString)

  datatype ImportError = NothingToImport | NoLineFound | InvalidLine(number: nat, error: LineError)

  datatype Import = Env(result: Result<Rows, ImportError>) | JsonText(trimmed: JsString)

  // ---- Lines ----

  /** `text.split(/\r\n|\n|\r/)` */
  function SplitLines(text: JsString): (lines: seq<JsString>)
    ensures |lines| >= 1
  {
    if text == [] then [[]]
    else if text[0] == CR && |text| >= 2 && text[1] == LF then [[]] + SplitLines(text[2..])
    else if text[0] == LF || text[0] == CR then [[]] + SplitLines(text[1..])
    else
      var rest := SplitLines(text[1..]);
      [[text[0]] + rest[0]] + rest[1..]
  }

  predicate StartsWith(s: JsString, prefix: JsString) {
    prefix <= s
  }

  /** `indexOf`; the length of the string when absent. */
  function IndexOf(s: JsString, c: CodeUnit): (i: nat)
    ensures i <= |s|
    ensures i < |s| ==> s[i] == c
    ensures c !in s[..i]
  {
    if s == [] || s[0] == c then 0 else 1 + IndexOf(s[1..], c)
  }

  // ---- Double-quoted values ----

  predicate IsHexDigit(c: CodeUnit) {
    '0' as CodeUnit <= c <= '9' as CodeUnit || 'a' as CodeUnit <= c <= 'f' as CodeUnit || 'A' as CodeUnit <= c <= 'F' as CodeUnit
  }

  function HexValue(c: CodeUnit): (v: nat)
    requires IsHexDigit(c)
    ensures v < 16
  {
    if c <= '9' as CodeUnit then (c - '0' as CodeUnit) as nat
    else if 'a' as CodeUnit <= c then 10 + (c - 'a' as CodeUnit) as nat
    else 10 + (c - 'A' as CodeUnit) as nat
  }

  /** `u[0-9a-fA-F]{4}` after the backslash. */
  predicate IsUnicodeEscape(s: JsString) {
    |s| >= 6 && s[0] == BACKSLASH && s[1] == 'u' as CodeUnit && forall i | 2 <= i < 6 :: IsHexDigit(s[i])
  }

  function FromUnicodeEscape(s: JsString): CodeUnit
    requires IsUnicodeEscape(s)
  {
    (((HexValue(s[2]) * 16 + HexValue(s[3])) * 16 + HexValue(s[4])) * 16 + HexValue(s[5])) as CodeUnit
  }

  /** What `.` does not match. */
  predicate IsLineTerminator(c: CodeUnit) {
    c == LF || c == CR || c == 0x2028 || c == 0x2029
  }

  /** The replacement of a backslash and one more character; an unknown escape stays as it is. */
  function Unescaped(c: CodeUnit): JsString {
    if c == 'n' as CodeUnit then [LF]
    else if c == 'r' as CodeUnit then [CR]
    else if c == 't' as CodeUnit then [TAB]
    else if c == DQUOTE then [DQUOTE]
    else if c == BACKSLASH then [BACKSLASH]
    else [BACKSLASH, c]
  }

  /** One pass from the left, the unicode escape tried first at every backslash. */
  function UnescapeDoubleQuoted(s: JsString): JsString {
    if s == [] then []
    else if IsUnicodeEscape(s) then [FromUnicodeEscape(s)] + UnescapeDoubleQuoted(s[6..])
    else if s[0] == BACKSLASH && |s| >= 2 && !IsLineTerminator(s[1]) then Unescaped(s[1]) + UnescapeDoubleQuoted(s[2..])
    else [s[0]] + UnescapeDoubleQuoted(s[1..])
  }

  predicate Wrapped(value: JsString, quote: CodeUnit) {
    |value| >= 2 && value[0] == quote && value[|value| - 1] == quote
  }

  function ReadValue(value: JsString): JsString {
    if Wrapped(value, SQUOTE) then value[1..|value| - 1]
    else if Wrapped(value, DQUOTE) then UnescapeDoubleQuoted(value[1..|value| - 1])
    else value
  }

  // ---- One line ----

  const EXPORT: JsString := ['e' as CodeUnit, 'x' as CodeUnit, 'p' as CodeUnit, 'o' as CodeUnit, 'r' as CodeUnit, 't' as CodeUnit, 0x20]

  datatype Line = Skipped | Assignment(key: JsString, value: JsString) | Rejected(error: LineError)

  function WithoutExport(line: JsString): JsString {
    if StartsWith(line, EXPORT) then Trim(line[|EXPORT|..]) else line
  }

  function ReadAssignment(line: JsString): Line {
    var eq := IndexOf(line, EQUALS);
    if eq == |line| then Rejected(NoEquals)
    else
      var key := Trim(line[..eq]);
      if key == [] then Rejected(EmptyKey)
      else if !IsEnvSafeKey(key) then Rejected(InvalidKey(key))
      else Assignment(key, ReadValue(Trim(line[eq + 1..])))
  }

  function ReadLine(rawLine: JsString): Line {
    var line := Trim(rawLine);
    if line == [] || line[0] == HASH then Skipped else ReadAssignment(WithoutExport(line))
  }

  // ---- The whole text ----

  /** The last value of a key wins and keeps the place of the first one. */
  function WithRow(sofar: Rows, key: JsString, value: JsString): Rows {
    if exists r | r in sofar.rows :: r.key == key then
      Rows(Replaced(sofar.rows, key, value), sofar.duplicates + [key])
    else Rows(sofar.rows + [Entry(key, value)], sofar.duplicates)
  }

  function Replaced(rows: seq<Row>, key: JsString, value: JsString): (r: seq<Row>)
    ensures |r| == |rows|
    ensures forall i | 0 <= i < |r| :: r[i] == if rows[i].key == key then Entry(key, value) else rows[i]
  {
    seq(|rows|, i requires 0 <= i < |rows| => if rows[i].key == key then Entry(key, value) else rows[i])
  }

  /** The rows of some lines, given how one line is read. */
  function ReadLines(read: JsString -> Line, lines: seq<JsString>): Result<Rows, ImportError> {
    if lines == [] then Ok(Rows([], []))
    else
      match ReadLines(read, lines[..|lines| - 1])
      case Err(e) => Err(e)
      case Ok(sofar) => AfterLine(sofar, |lines|, read(lines[|lines| - 1]))
  }

  function AfterLine(sofar: Rows, number: nat, line: Line): Result<Rows, ImportError> {
    match line
    case Skipped => Ok(sofar)
    case Rejected(error) => Err(InvalidLine(number, error))
    case Assignment(key, value) => Ok(WithRow(sofar, key, value))
  }

  lemma ReadLinesStep(read: JsString -> Line, lines: seq<JsString>, i: nat, sofar: Rows)
    requires i < |lines| && ReadLines(read, lines[..i]) == Ok(sofar)
    ensures ReadLines(read, lines[..i + 1]) == AfterLine(sofar, i + 1, read(lines[i]))
  {
    assert lines[..i + 1][..i] == lines[..i];
  }

  function ReadText(text: JsString): Result<Rows, ImportError> {
    match ReadLines(ReadLine, SplitLines(text))
    case Err(e) => Err(e)
    case Ok(r) => if r.rows == [] then Err(NoLineFound) else Ok(r)
  }

  /** `byKey` holds the place of every key's row. */
  method ParseEnvImport(text: JsString) returns (result: Result<Rows, ImportError>)
    ensures result == ReadText(text)
  {
    var sofar := Rows([], []);
    var byKey: map<JsString, nat> := map[];
    var lines := SplitLines(text);
    for i := 0 to |lines|
      invariant ReadLines(ReadLine, lines[..i]) == Ok(sofar)
      invariant Indexes(byKey, sofar.rows)
    {
      ReadLinesStep(ReadLine, lines, i, sofar);
      var next;
      next, byKey := ParseLine(lines[i], i + 1, sofar, byKey);
      if next.Err? {
        FailureSpreads(ReadLine, lines, i + 1);
        return next;
      }
      sofar := next.value;
    }
    assert lines[..|lines|] == lines;
    return if |sofar.rows| == 0 then Err(NoLineFound) else Ok(sofar);
  }

  /** One round of the loop over the lines. */
  method ParseLine(rawLine: JsString, number: nat, sofar: Rows, byKey: map<JsString, nat>)
    returns (r: Result<Rows, ImportError>, newByKey: map<JsString, nat>)
    requires Indexes(byKey, sofar.rows)
    ensures r == AfterLine(sofar, number, ReadLine(rawLine))
    ensures r.Ok? ==> Indexes(newByKey, r.value.rows)
  {
    newByKey := byKey;
    var line := ReadLine(rawLine);
    match line {
      case Skipped =>
        return Ok(sofar), byKey;
      case Rejected(error) =>
        return Err(InvalidLine(number, error)), byKey;
      case Assignment(key, value) =>
        var rows, duplicates;
        rows, duplicates, newByKey := AddRow(sofar.rows, sofar.duplicates, byKey, key, value);
        return Ok(Rows(rows, duplicates)), newByKey;
    }
  }

  method AddRow(rows: seq<Row>, duplicates: seq<JsString>, byKey: map<JsString, nat>, key: JsString, value: JsString)
    returns (newRows: seq<Row>, newDuplicates: seq<JsString>, newByKey: map<JsString, nat>)
    requires Indexes(byKey, rows)
    ensures Rows(newRows, newDuplicates) == WithRow(Rows(rows, duplicates), key, value)
    ensures Indexes(newByKey, newRows)
  {
    newRows, newDuplicates, newByKey := rows, duplicates, byKey;
    if key in byKey {
      newDuplicates := duplicates + [key];
      newRows := rows[byKey[key] := Entry(key, value)];
      assert rows[byKey[key]] in rows;
      assert newRows == Replaced(rows, key, value);
    } else {
      newByKey := byKey[key := |rows|];
      newRows := rows + [Entry(key, value)];
    }
  }

  ghost predicate Indexes(byKey: map<JsString, nat>, rows: seq<Row>) {
    && (forall k | k in byKey :: byKey[k] < |rows| && rows[byKey[k]].key == k)
    && (forall i | 0 <= i < |rows| :: rows[i].key in byKey && byKey[rows[i].key] == i)
  }

  lemma {:induction false} FailureSpreads(read: JsString -> Line, lines: seq<JsString>, i: nat)
    requires i <= |lines| && ReadLines(read, lines[..i]).Err?
    ensures ReadLines(read, lines) == ReadLines(read, lines[..i])
  {
    if i < |lines| {
      assert lines[..|lines| - 1][..i] == lines[..i];
      FailureSpreads(read, lines[..|lines| - 1], i);
    } else {
      assert lines[..i] == lines;
    }
  }

  /** Pasted text is JSON when, trimmed, it starts with a brace or a bracket. */
  method ParseSecretImport(text: JsString) returns (r: Import)
    ensures r == Imported(text)
  {
    var trimmed := Trim(text);
    if |trimmed| == 0 {
      return Env(Err(NothingToImport));
    }
    if trimmed[0] == '{' as CodeUnit || trimmed[0] == '[' as CodeUnit {
      return JsonText(trimmed);
    }
    var result := ParseEnvImport(text);
    return Env(result);
  }

  function Imported(text: JsString): Import {
    var trimmed := Trim(text);
    if trimmed == [] then Env(Err(NothingToImport))
    else if trimmed[0] == '{' as CodeUnit || trimmed[0] == '[' as CodeUnit then JsonText(trimmed)
    else Env(ReadText(text))
  }

  // ---- What an import holds ----

  function LastValue(read: JsString -> Line, lines: seq<JsString>, key: JsString): Option<JsString> {
    if lines == [] then None
    else
      var line := read(lines[|lines| - 1]);
      if line.Assignment? && line.key == key then Some(line.value) else LastValue(read, lines[..|lines| - 1], key)
  }

  function Assignments(read: JsString -> Line, lines: seq<JsString>): nat {
    if lines == [] then 0
    else Assignments(read, lines[..|lines| - 1]) + (if read(lines[|lines| - 1]).Assignment? then 1 else 0)
  }

  /** Each key has one row, holding the last value assigned to it; every other assignment is a warning. */
  lemma {:induction false} LastValueWins(read: JsString -> Line, lines: seq<JsString>, key: JsString)
    requires ReadLines(read, lines).Ok?
    ensures var r := ReadLines(read, lines).value;
            && UniqueKeys(r.rows)
            && |r.rows| + |r.duplicates| == Assignments(read, lines)
            && (forall row | row in r.rows && row.key == key :: LastValue(read, lines, key) == Some(row.value))
            && (LastValue(read, lines, key).Some? <==> exists row :: row in r.rows && row.key == key)
  {
    if lines != [] {
      var init, line := lines[..|lines| - 1], read(lines[|lines| - 1]);
      LastValueWins(read, init, key);
      var sofar := ReadLines(read, init).value;
      if line.Assignment? {
        WithRowSets(sofar, line.key, line.value, key);
      }
    }
  }

  lemma WithRowSets(sofar: Rows, key: JsString, value: JsString, k: JsString)
    requires UniqueKeys(sofar.rows)
    ensures var r := WithRow(sofar, key, value);
            && UniqueKeys(r.rows) && |r.rows| + |r.duplicates| == |sofar.rows| + |sofar.duplicates| + 1
            && (forall row | row in r.rows && row.key == key :: row.value == value)
            && (exists row :: row in r.rows && row.key == key)
            && (k != key ==> forall row: Row | row.key == k :: row in r.rows <==> row in sofar.rows)
  {
    var r := WithRow(sofar, key, value);
    if exists row | row in sofar.rows :: row.key == key {
      var i :| 0 <= i < |sofar.rows| && sofar.rows[i].key == key;
      assert r.rows[i] in r.rows;
      forall row: Row | row.key == k && k != key ensures row in r.rows <==> row in sofar.rows {
        if row in sofar.rows {
          var j :| 0 <= j < |sofar.rows| && sofar.rows[j] == row;
          assert r.rows[j] == row;
        }
      }
    } else {
      assert Entry(key, value) in r.rows;
    }
  }

  lemma WithRowKeepsPlaces(sofar: Rows, key: JsString, value: JsString)
    ensures var r := WithRow(sofar, key, value);
            && |sofar.rows| <= |r.rows| && (forall i | 0 <= i < |sofar.rows| :: r.rows[i].key == sofar.rows[i].key)
            && r.duplicates == sofar.duplicates + (if exists row :: row in sofar.rows && row.key == key then [key] else [])
  {
  }

  /** Rows stand where their key was first assigned, and warnings follow each other in the order of the lines. */
  lemma {:induction false} EarlierRowsKeepTheirPlaces(read: JsString -> Line, lines: seq<JsString>, n: nat)
    requires n <= |lines| && ReadLines(read, lines).Ok?
    ensures ReadLines(read, lines[..n]).Ok?
    ensures var early, all := ReadLines(read, lines[..n]).value, ReadLines(read, lines).value;
            && |early.rows| <= |all.rows| && (forall i | 0 <= i < |early.rows| :: all.rows[i].key == early.rows[i].key)
            && early.duplicates <= all.duplicates
  {
    if n == |lines| {
      assert lines[..n] == lines;
    } else {
      var init, line := lines[..|lines| - 1], read(lines[|lines| - 1]);
      assert init[..n] == lines[..n];
      EarlierRowsKeepTheirPlaces(read, init, n);
      if line.Assignment? {
        WithRowKeepsPlaces(ReadLines(read, init).value, line.key, line.value);
      }
    }
  }

  lemma LastLineDecides(read: JsString -> Line, init: seq<JsString>, last: JsString)
    ensures ReadLines(read, init).Err? ==> ReadLines(read, init + [last]) == ReadLines(read, init)
    ensures ReadLines(read, init).Ok? && read(last).Rejected? ==> ReadLines(read, init + [last]) == Err(InvalidLine(|init| + 1, read(last).error))
    ensures ReadLines(read, init).Ok? && !read(last).Rejected? ==> ReadLines(read, init + [last]).Ok?
  {
    assert (init + [last])[..|init|] == init;
  }

  /** The import fails exactly when some line is rejected, and names the first one. */
  lemma {:induction false} FirstRejectedLineIsNamed(read: JsString -> Line, lines: seq<JsString>) returns (first: nat)
    ensures first <= |lines| && forall i | 0 <= i < first :: !read(lines[i]).Rejected?
    ensures ReadLines(read, lines).Ok? <==> first == |lines|
    ensures first < |lines| ==>
              read(lines[first]).Rejected? && ReadLines(read, lines) == Err(InvalidLine(first + 1, read(lines[first]).error))
  {
    if lines == [] {
      first := 0;
    } else {
      var init, last := lines[..|lines| - 1], lines[|lines| - 1];
      first := FirstRejectedLineIsNamed(read, init);
      assert lines == init + [last];
      LastLineDecides(read, init, last);
      if first == |init| && !read(last).Rejected? {
        first := |lines|;
      }
    }
  }
}
