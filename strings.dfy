/**
 * The few JavaScript string operations the service relies on: white space
 * as `trim()` and the regular-expression class `\s` see it, `trim()`,
 * `Array.prototype.join` and the first-letter capitalisation of the error
 * handler.
 */
module Strings {

  /** The characters that `String.prototype.trim` removes and that `\s` matches. */
  predicate IsSpace(c: char) {
    var n := c as int;
    (0x09 <= n <= 0x0D) || n == 0x20 || n == 0xA0 || n == 0x1680
    || (0x2000 <= n <= 0x200A) || n == 0x2028 || n == 0x2029 || n == 0x202F
    || n == 0x205F || n == 0x3000 || n == 0xFEFF
  }

  predicate IsBlank(s: string) {
    forall i :: 0 <= i < |s| ==> IsSpace(s[i])
  }

  /** `s` with its leading white space removed: a suffix of `s`, and what was dropped is blank. */
  function TrimStart(s: string): (r: string)
    ensures |r| <= |s| && r == s[|s| - |r|..]
    ensures IsBlank(s[..|s| - |r|])
    ensures r == [] || !IsSpace(r[0])
  {
    if |s| > 0 && IsSpace(s[0]) then
      var r := TrimStart(s[1..]);
      assert s[..|s| - |r|] == [s[0]] + s[1..][..|s| - 1 - |r|];
      r
    else s
  }

  /** `s` with its trailing white space removed: a prefix of `s`, and what was dropped is blank. */
  function TrimEnd(s: string): (r: string)
    ensures |r| <= |s| && r == s[..|r|]
    ensures IsBlank(s[|r|..])
    ensures r == [] || !IsSpace(r[|r| - 1])
  {
    if |s| > 0 && IsSpace(s[|s| - 1]) then
      var r := TrimEnd(s[..|s| - 1]);
      assert s[..|s| - 1][..|r|] == s[..|r|];
      assert s[|r|..] == s[..|s| - 1][|r|..] + [s[|s| - 1]];
      r
    else s
  }

  /** JavaScript's `s.trim()`. */
  function Trim(s: string): (r: string)
    ensures |r| <= |s|
    ensures IsTrimmed(r)
    ensures r == [] <==> IsBlank(s)
    ensures exists a, b :: 0 <= a <= b <= |s| && r == s[a..b] && IsBlank(s[..a]) && IsBlank(s[b..])
  {
    TrimBothEnds(s);
    BlankBorders(s, TrimStart(s), TrimEnd(TrimStart(s)));
    TrimEnd(TrimStart(s))
  }

  /**
   * A prefix `r` of a suffix `t` of `s`, where what each step dropped is
   * blank, is a slice of `s` with only blanks outside it.
   */
  lemma BlankBorders(s: string, t: string, r: string)
    requires |t| <= |s| && t == s[|s| - |t|..] && IsBlank(s[..|s| - |t|])
    requires |r| <= |t| && r == t[..|r|] && IsBlank(t[|r|..])
    ensures exists a, b :: 0 <= a <= b <= |s| && r == s[a..b] && IsBlank(s[..a]) && IsBlank(s[b..])
  {
    var a := |s| - |t|;
    var b := a + |r|;
    assert r == s[a..b];
    assert t[|r|..] == s[b..];
  }

  /**
   * JavaScript's `s.length`: the number of UTF-16 code units, which is two
   * for a character outside the Basic Multilingual Plane and one otherwise.
   */
  function Utf16Length(s: string): (n: nat)
    ensures |s| <= n <= 2 * |s|
  {
    if s == [] then 0 else Utf16Length(s[..|s| - 1]) + (if s[|s| - 1] as int >= 0x1_0000 then 2 else 1)
  }

  /** Without characters outside the Basic Multilingual Plane, JavaScript's length is the number of characters. */
  lemma {:induction false} BasicPlaneLength(s: string)
    requires forall i :: 0 <= i < |s| ==> s[i] as int < 0x1_0000
    ensures Utf16Length(s) == |s|
  {
    if s != [] {
      BasicPlaneLength(s[..|s| - 1]);
    }
  }

  /** A string that neither starts nor ends with white space is its own trim. */
  lemma TrimUnspaced(s: string)
    requires s != [] && !IsSpace(s[0]) && !IsSpace(s[|s| - 1])
    ensures Trim(s) == s
  {
    assert TrimStart(s) == s;
    assert TrimEnd(s) == s;
  }

  /** Trimming both ends leaves no white space at either end, and nothing exactly when all was white space. */
  lemma TrimBothEnds(s: string)
    ensures IsTrimmed(TrimEnd(TrimStart(s)))
    ensures TrimEnd(TrimStart(s)) == [] <==> IsBlank(s)
  {
    var t := TrimStart(s);
    var r := TrimEnd(t);
    if r == [] {
      assert t[|r|..] == t;
      BlankStartIsEmpty(t);
      assert s[..|s|] == s;
    } else {
      assert r[0] == t[0];
      assert t[0] == s[|s| - |t|];
    }
  }

  /** A blank string that does not start with white space is empty. */
  lemma BlankStartIsEmpty(t: string)
    requires IsBlank(t)
    requires t == [] || !IsSpace(t[0])
    ensures t == []
  {
  }

  /** `s` has no white space at either end. */
  predicate IsTrimmed(s: string) {
    s == [] || (!IsSpace(s[0]) && !IsSpace(s[|s| - 1]))
  }

  /** The trimmed strings are exactly the ones trimming leaves unchanged. */
  lemma TrimmedIsFixedPoint(s: string)
    ensures IsTrimmed(s) <==> Trim(s) == s
  {
  }

  /** Trimming twice is trimming once. */
  lemma TrimIdempotent(s: string)
    ensures Trim(Trim(s)) == Trim(s)
  {
    TrimmedIsFixedPoint(Trim(s));
  }

  /** `parts.join(sep)`. */
  function Join(parts: seq<string>, sep: string): string
  {
    if |parts| == 0 then ""
    else if |parts| == 1 then parts[0]
    else parts[0] + sep + Join(parts[1..], sep)
  }

  /**
   * Where the `i`-th part starts inside `Join(parts, sep)`: every part
   * appears, unchanged, in the joined text.
   */
  function JoinOffset(parts: seq<string>, sep: string, i: nat): (k: nat)
    requires i < |parts|
    ensures k + |parts[i]| <= |Join(parts, sep)|
    ensures Join(parts, sep)[k..k + |parts[i]|] == parts[i]
    decreases i
  {
    if i == 0 then
      assert |parts| > 1 ==> Join(parts, sep) == parts[0] + (sep + Join(parts[1..], sep));
      0
    else
      var tail := parts[1..];
      assert tail[i - 1] == parts[i];
      var k' := JoinOffset(tail, sep, i - 1);
      var rest := Join(tail, sep);
      var front := parts[0] + sep;
      assert Join(parts, sep) == front + rest;
      var k := |front| + k';
      assert (front + rest)[k..k + |parts[i]|] == rest[k'..k' + |parts[i]|];
      k
  }

  /** `part` appears in `text` starting at index `k`. */
  predicate OccursAt(part: string, text: string, k: int) {
    0 <= k && k + |part| <= |text| && text[k..k + |part|] == part
  }

  /** Upper-cases an ASCII letter; every other character is returned as it is. */
  function UpperAscii(c: char): (u: char)
    ensures 'a' <= c <= 'z' ==> 'A' <= u <= 'Z' && u as int == c as int - 32
    ensures !('a' <= c <= 'z') ==> u == c
  {
    if 'a' <= c <= 'z' then (c as int - 32) as char else c
  }

  /**
   * `s.charAt(0).toUpperCase() + s.slice(1)`. Only ASCII letters are
   * upper-cased: the strings capitalised are the schemas' field names,
   * which are ASCII.
   */
  function Capitalize(s: string): (r: string)
    ensures |r| == |s|
    ensures |s| > 0 ==> r[0] == UpperAscii(s[0]) && r[1..] == s[1..]
    ensures s == [] ==> r == []
  {
    if s == [] then [] else [UpperAscii(s[0])] + s[1..]
  }
}
