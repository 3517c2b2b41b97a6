/**
 * Document identifiers: 24 hexadecimal digits. The database stores them
 * as binary, so two spellings that differ only in letter case name the same
 * document; `Id` is the canonical, lower-case spelling.
 */
module ObjectIds {
  import opened Wrappers
  import opened Js

  const IdLength: nat := 24

  predicate IsHexDigit(c: char) {
    ('0' <= c <= '9') || ('a' <= c <= 'f') || ('A' <= c <= 'F')
  }

  /** `/^[0-9a-fA-F]{24}$/.test(s)`. */
  predicate IsObjectIdText(s: string) {
    |s| == IdLength && forall i :: 0 <= i < |s| ==> IsHexDigit(s[i])
  }

  predicate IsCanonical(s: string) {
    |s| == IdLength && forall i :: 0 <= i < |s| ==> ('0' <= s[i] <= '9') || ('a' <= s[i] <= 'f')
  }

  type Id = s: string | IsCanonical(s) witness "000000000000000000000000"

  function LowerHex(c: char): (d: char)
    requires IsHexDigit(c)
    ensures ('0' <= d <= '9') || ('a' <= d <= 'f')
    ensures ('0' <= c <= '9') || ('a' <= c <= 'f') ==> d == c
  {
    if 'A' <= c <= 'F' then (c as int + 32) as char else c
  }

  /** The canonical spelling of an identifier text. */
  function Canonical(s: string): (id: Id)
    requires IsObjectIdText(s)
    ensures |id| == |s|
    ensures IsCanonical(s) ==> id == s
  {
    seq(|s|, i requires 0 <= i < |s| => LowerHex(s[i]))
  }

  /**
   * Casting a request value to an identifier, as a lookup by id does before
   * it queries: only a string of 24 hexadecimal digits is an identifier;
   * anything else is a cast failure (`None`).
   */
  function CastObjectId(v: Json): (r: Option<Id>)
    ensures r.Some? <==> v.Str? && IsObjectIdText(v.s)
    ensures r.Some? ==> r.value == Canonical(v.s)
  {
    if v.Str? && IsObjectIdText(v.s) then Some(Canonical(v.s)) else None
  }

  /** Every canonical identifier is valid identifier text and casts to itself. */
  lemma CanonicalRoundTrip(id: Id)
    ensures IsObjectIdText(id)
    ensures CastObjectId(Str(id)) == Some(id)
  {
  }

  /** Two spellings that differ only in case cast to the same identifier. */
  lemma CaseInsensitive(s: string, t: string)
    requires IsObjectIdText(s) && IsObjectIdText(t)
    requires forall i :: 0 <= i < IdLength ==> LowerHex(s[i]) == LowerHex(t[i])
    ensures CastObjectId(Str(s)) == CastObjectId(Str(t))
  {
    var a, b := Canonical(s), Canonical(t);
    assert forall i :: 0 <= i < |a| ==> a[i] == b[i];
    assert a == b;
  }
}
