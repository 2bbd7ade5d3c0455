/** JavaScript strings: sequences of UTF-16 code units, with the order of the `<` operator. */
module JsStrings {

  newtype CodeUnit = u: int | 0 <= u < 0x1_0000

  type JsString = seq<CodeUnit>

  /** `a < b` on JavaScript strings: code unit by code unit, a proper prefix first. */
  predicate Less(a: JsString, b: JsString) {
    if b == [] then false
    else if a == [] then true
    else if a[0] != b[0] then a[0] < b[0]
    else Less(a[1..], b[1..])
  }

  lemma {:induction false} LessIsAsymmetric(a: JsString, b: JsString)
    ensures !(Less(a, b) && Less(b, a))
  {
    if a != [] && b != [] && a[0] == b[0] {
      LessIsAsymmetric(a[1..], b[1..]);
    }
  }

  lemma {:induction false} LessIsConnected(a: JsString, b: JsString)
    ensures a == b || Less(a, b) || Less(b, a)
  {
    if a != [] && b != [] && a[0] == b[0] {
      LessIsConnected(a[1..], b[1..]);
      if a[1..] == b[1..] {
        assert a == [a[0]] + a[1..] && b == [b[0]] + b[1..];
      }
    }
  }

  lemma {:induction false} LessIsTransitive(a: JsString, b: JsString, c: JsString)
    requires Less(a, b) && Less(b, c)
    ensures Less(a, c)
  {
    if a != [] && a[0] == b[0] && b[0] == c[0] {
      LessIsTransitive(a[1..], b[1..], c[1..]);
    }
  }

  /** `b` goes on after `a`, or they first differ at `k`, where `a` has the smaller code unit. */
  ghost predicate FirstDifference(a: JsString, b: JsString, k: nat) {
    k <= |a| && k < |b| && a[..k] == b[..k] && (k == |a| || a[k] < b[k])
  }

  lemma {:induction false} LessIff(a: JsString, b: JsString)
    ensures Less(a, b) <==> exists k: nat :: FirstDifference(a, b, k)
  {
    if a != [] && b != [] && a[0] == b[0] {
      LessIff(a[1..], b[1..]);
      assert a == [a[0]] + a[1..] && b == [b[0]] + b[1..];
      if k: nat :| FirstDifference(a[1..], b[1..], k) {
        assert a[..k + 1] == [a[0]] + a[1..][..k] && b[..k + 1] == [b[0]] + b[1..][..k];
        assert FirstDifference(a, b, k + 1);
      }
      if k: nat :| FirstDifference(a, b, k) {
        assert a[1..][..k - 1] == a[..k][1..] && b[1..][..k - 1] == b[..k][1..];
        assert FirstDifference(a[1..], b[1..], k - 1);
      }
    } else if b != [] && (a == [] || a[0] < b[0]) {
      assert FirstDifference(a, b, 0);
    } else if b != [] && a != [] {
      forall k: nat | 0 < k <= |a| && k <= |b| ensures a[..k] != b[..k] {
        assert a[..k][0] == a[0] && b[..k][0] == b[0];
      }
    }
  }

  /** The code units stripped by `String.prototype.trim`: white space and line terminators. */
  predicate IsSpace(c: CodeUnit) {
    || 0x09 <= c <= 0x0D
    || c == 0x20 || c == 0xA0 || c == 0x1680
    || 0x2000 <= c <= 0x200A
    || c == 0x2028 || c == 0x2029 || c == 0x202F || c == 0x205F || c == 0x3000 || c == 0xFEFF
  }

  function TrimStart(s: JsString): (r: JsString)
    ensures r == [] || !IsSpace(r[0])
    ensures |r| <= |s| && r == s[|s| - |r|..]
  {
    if s != [] && IsSpace(s[0]) then TrimStart(s[1..]) else s
  }

  function TrimEnd(s: JsString): (r: JsString)
    ensures r == [] || !IsSpace(r[|r| - 1])
    ensures r <= s
  {
    if s != [] && IsSpace(s[|s| - 1]) then TrimEnd(s[..|s| - 1]) else s
  }

  function Trim(s: JsString): JsString {
    TrimEnd(TrimStart(s))
  }

  /** Every code unit replaced by a string. */
  function FlatMap(f: CodeUnit -> JsString, s: JsString): JsString {
    if s == [] then [] else FlatMap(f, s[..|s| - 1]) + f(s[|s| - 1])
  }

  lemma {:induction false} FlatMapPrefixed(f: CodeUnit -> JsString, c: CodeUnit, s: JsString)
    ensures FlatMap(f, [c] + s) == f(c) + FlatMap(f, s)
  {
    if s == [] {
      assert ([c] + s)[..0] == [];
    } else {
      var init, last := s[..|s| - 1], s[|s| - 1];
      FlatMapPrefixed(f, c, init);
      assert ([c] + s)[..|s|] == [c] + init;
    }
  }
}
