/** What the `.env` import promises of hand-written files. */
module ImportFacts {
  import opened JsStrings
  import opened Model
  import opened SecretEnv
  import opened SecretImport
  import opened EnvRoundTrip

  lemma BlankIsSkipped(pad: JsString)
    requires forall c | c in pad :: IsSpace(c)
    ensures ReadLine(pad) == Skipped
  {
    BlankTrims(pad);
  }

  lemma BlankTrims(pad: JsString)
    requires forall c | c in pad :: IsSpace(c)
    ensures Trim(pad) == []
  {
    TrimStartDrops(pad, []);
    assert pad + [] == pad;
  }

  /** The first character that is not white space, at `k`, is this one. */
  ghost predicate StartsAt(text: JsString, k: nat, c: CodeUnit) {
    k < |text| && text[k] == c && !IsSpace(c) && forall i | 0 <= i < k :: IsSpace(text[i])
  }

  lemma TrimStartsAt(text: JsString, k: nat, c: CodeUnit)
    requires StartsAt(text, k, c)
    ensures Trim(text) != [] && Trim(text)[0] == c
  {
    forall x | x in text[..k] ensures IsSpace(x) {
      var i :| 0 <= i < k && text[..k][i] == x;
    }
    assert text == text[..k] + text[k..];
    TrimStartDrops(text[..k], text[k..]);
    TrimEndKeepsFirst(text[k..]);
  }

  lemma {:induction false} FirstVisible(text: JsString) returns (k: nat)
    ensures k <= |text| && forall i | 0 <= i < k :: IsSpace(text[i])
    ensures k < |text| ==> !IsSpace(text[k])
  {
    k := 0;
    if text != [] && IsSpace(text[0]) {
      k := FirstVisible(text[1..]);
      k := k + 1;
    }
  }

  /** Text is JSON exactly when its first visible character is an opening brace or bracket, and nothing exactly when it has none. */
  lemma ImportKindIff(text: JsString)
    ensures Imported(text).JsonText? <==> exists k: nat :: StartsAt(text, k, 0x7B) || StartsAt(text, k, 0x5B)
    ensures Imported(text) == Env(Err(NothingToImport)) <==> forall c | c in text :: IsSpace(c)
  {
    var k := FirstVisible(text);
    if k < |text| {
      assert StartsAt(text, k, text[k]);
      TrimStartsAt(text, k, text[k]);
      assert text[k] in text;
      forall i: nat, c | StartsAt(text, i, c) ensures i == k {
      }
      TextIsNotNothing(text);
    } else {
      forall c | c in text ensures IsSpace(c) {
        var i :| 0 <= i < |text| && text[i] == c;
      }
      BlankTrims(text);
    }
  }

  lemma {:induction false} NeverNothing(read: JsString -> Line, lines: seq<JsString>)
    ensures ReadLines(read, lines) != Err(NothingToImport)
  {
    if lines != [] {
      NeverNothing(read, lines[..|lines| - 1]);
    }
  }

  lemma TextIsNotNothing(text: JsString)
    ensures ReadText(text) != Err(NothingToImport)
  {
    NeverNothing(ReadLine, SplitLines(text));
  }

  /** After any white space, a line is skipped exactly when it is a comment. */
  lemma CommentsAreSkipped(pad: JsString, line: JsString)
    requires (forall c | c in pad :: IsSpace(c)) && line != [] && !IsSpace(line[0])
    ensures ReadLine(pad + line) == Skipped <==> line[0] == HASH
  {
    TrimStartDrops(pad, line);
    TrimEndKeepsFirst(line);
    AssignmentsAreNotSkipped(WithoutExport(Trim(pad + line)));
  }

  lemma AssignmentsAreNotSkipped(line: JsString)
    ensures ReadAssignment(line) != Skipped
  {
  }

  lemma {:induction false} TrimStartDrops(pad: JsString, line: JsString)
    requires (forall c | c in pad :: IsSpace(c)) && (line == [] || !IsSpace(line[0]))
    ensures TrimStart(pad + line) == line
  {
    if pad == [] {
      assert pad + line == line;
    } else {
      assert pad[0] in pad && (pad + line)[1..] == pad[1..] + line;
      TrimStartDrops(pad[1..], line);
    }
  }

  /** A single-quoted value is taken literally: no escape, no trimming. */
  lemma SingleQuotedIsLiteral(key: JsString, value: JsString)
    requires IsEnvSafeKey(key)
    ensures ReadLine(key + [EQUALS] + SingleQuoted(value)) == Assignment(key, value)
  {
    ReadLineOf(key, SingleQuoted(value));
    TrimSingleQuoted(value);
    ReadSingleQuoted(value);
  }

  function SingleQuoted(value: JsString): JsString {
    [SQUOTE] + value + [SQUOTE]
  }

  lemma TrimSingleQuoted(value: JsString)
    ensures Trim(SingleQuoted(value)) == SingleQuoted(value)
  {
    TrimWrapped(SQUOTE, value);
  }

  lemma ReadSingleQuoted(value: JsString)
    ensures ReadValue(SingleQuoted(value)) == value
  {
    var printed := SingleQuoted(value);
    assert Wrapped(printed, SQUOTE);
    assert printed[1..|printed| - 1] == value;
  }

  /** `export KEY=value` reads as `KEY=value`. */
  lemma ExportPrefixIsIgnored(key: JsString, value: JsString)
    requires IsEnvSafeKey(key)
    ensures ReadLine(EXPORT + (key + [EQUALS] + value)) == ReadLine(key + [EQUALS] + value)
  {
    SafeKeyIsVisible(key);
    var assignment := key + [EQUALS] + value;
    var trimmed := key + [EQUALS] + TrimEnd(value);
    assert key[0] in key;
    TrimEndStops(EXPORT + (key + [EQUALS]), value);
    assert EXPORT + assignment == EXPORT + (key + [EQUALS]) + value;
    ExportStarts();
    assert Trim(EXPORT + assignment) == EXPORT + trimmed;
    PrefixRemoved(key, TrimEnd(value));
    ReadAssignmentOf(key, TrimEnd(value));
    TrimAfterTrimEnd(value);
    ReadLineOf(key, value);
  }

  lemma ExportStarts()
    ensures EXPORT != [] && !IsSpace(EXPORT[0]) && EXPORT[0] != HASH
  {
  }

  lemma PrefixRemoved(key: JsString, value: JsString)
    requires IsEnvSafeKey(key) && TrimEnd(value) == value
    ensures WithoutExport(EXPORT + (key + [EQUALS] + value)) == key + [EQUALS] + value
  {
    var line := key + [EQUALS] + value;
    assert (EXPORT + line)[|EXPORT|..] == line;
    SafeKeyIsVisible(key);
    assert key[0] in key && line[0] == key[0];
    TrimEndStops(key + [EQUALS], value);
  }

  // ---- Line endings ----

  predicate IsLineEnding(end: JsString) {
    end == [LF] || end == [CR] || end == [CR, LF]
  }

  /** The lines, each followed by the same line ending. */
  function Terminated(lines: seq<JsString>, end: JsString): JsString {
    if lines == [] then [] else lines[0] + end + Terminated(lines[1..], end)
  }

  lemma {:induction false} SplitOneLine(line: JsString, end: JsString, rest: JsString)
    requires IsLineEnding(end) && LF !in line && CR !in line && (rest == [] || rest[0] != LF || end != [CR])
    ensures SplitLines(line + end + rest) == [line] + SplitLines(rest)
  {
    var text := line + end + rest;
    if line == [] {
      assert text[|end|..] == rest;
    } else {
      assert text[0] == line[0] && line[0] in line && text[1..] == line[1..] + end + rest;
      SplitOneLine(line[1..], end, rest);
      assert [line[0]] + line[1..] == line;
    }
  }

  lemma {:induction false} SplitTerminated(lines: seq<JsString>, end: JsString)
    requires IsLineEnding(end) && forall l | l in lines :: LF !in l && CR !in l
    ensures SplitLines(Terminated(lines, end)) == lines + [[]]
  {
    if lines != [] {
      assert lines[0] in lines;
      var rest := Terminated(lines[1..], end);
      if |lines| > 1 {
        assert lines[1] in lines && lines[1..][0] == lines[1];
        assert lines[1] != [] ==> rest[0] == lines[1][0] && lines[1][0] in lines[1];
        assert lines[1] == [] ==> rest[0] == end[0];
      }
      SplitOneLine(lines[0], end, rest);
      SplitTerminated(lines[1..], end);
    }
  }

  /** Unix, Windows and old Macintosh line endings read the same. */
  lemma LineEndingsDoNotMatter(lines: seq<JsString>, a: JsString, b: JsString)
    requires IsLineEnding(a) && IsLineEnding(b) && forall l | l in lines :: LF !in l && CR !in l
    ensures ReadText(Terminated(lines, a)) == ReadText(Terminated(lines, b))
  {
    SplitTerminated(lines, a);
    SplitTerminated(lines, b);
  }
}
