/**
 * The e-mail shape check of the guest validators,
 * `/^[^\s@]+@[^\s@]+\.[^\s@]+$/.test(email)`: a decision procedure that
 * splits at the `@`, and a proof that it accepts exactly the language of
 * the regular expression.
 */
module Email {
  import opened Strings

  /** A character the class `[^\s@]` matches. */
  predicate Plain(c: char) {
    !IsSpace(c) && c != '@'
  }

  predicate AllPlain(s: string) {
    forall i :: 0 <= i < |s| ==> Plain(s[i])
  }

  /**
   * The language of the regular expression: three non-empty runs of plain
   * characters, the first two separated by `@` and the last two by `.`.
   */
  ghost predicate InEmailLanguage(s: string) {
    exists at: nat, dot: nat ::
      && 0 < at && at + 1 < dot && dot + 1 < |s|
      && s[at] == '@' && s[dot] == '.'
      && AllPlain(s[..at]) && AllPlain(s[at + 1..dot]) && AllPlain(s[dot + 1..])
  }

  /** The index of the first `@` in `s`, or `|s|` when there is none. */
  function FirstAt(s: string): (k: nat)
    ensures k <= |s|
    ensures k < |s| ==> s[k] == '@'
    ensures forall i :: 0 <= i < k ==> s[i] != '@'
  {
    if s == [] || s[0] == '@' then 0 else 1 + FirstAt(s[1..])
  }

  /**
   * The check as the guest validators perform it: a non-empty local part
   * before the first `@`, no white space and no second `@` anywhere, and a
   * `.` in the domain that is neither its first nor its last character.
   */
  predicate IsEmail(s: string) {
    var at := FirstAt(s);
    && 0 < at < |s|
    && AllPlain(s[..at])
    && var domain := s[at + 1..];
    && AllPlain(domain)
    && 2 < |domain|
    && '.' in domain[1..|domain| - 1]
  }

  /** Every string the check accepts matches the regular expression. */
  lemma IsEmailSound(s: string)
    requires IsEmail(s)
    ensures InEmailLanguage(s)
  {
    var at := FirstAt(s);
    var domain := s[at + 1..];
    var inner := domain[1..|domain| - 1];
    var j :| 0 <= j < |inner| && inner[j] == '.';
    var dot := at + 2 + j;
    assert s[dot] == '.';
    assert s[at + 1..dot] == domain[..j + 1];
    assert s[dot + 1..] == domain[j + 2..];
  }

  /** Every string the regular expression matches is accepted by the check. */
  lemma IsEmailComplete(s: string, at: nat, dot: nat)
    requires 0 < at && at + 1 < dot && dot + 1 < |s|
    requires s[at] == '@' && s[dot] == '.'
    requires AllPlain(s[..at]) && AllPlain(s[at + 1..dot]) && AllPlain(s[dot + 1..])
    ensures IsEmail(s)
  {
    assert forall i :: 0 <= i < at ==> s[i] == s[..at][i];
    assert FirstAt(s) == at;
    var domain := s[at + 1..];
    var k := dot - at - 1;
    forall i | 0 <= i < |domain|
      ensures Plain(domain[i])
    {
      if i < k {
        assert domain[i] == s[at + 1..dot][i];
      } else if i > k {
        assert domain[i] == s[dot + 1..][i - k - 1];
      }
    }
    assert domain[1..|domain| - 1][k - 1] == '.';
  }

  /** The decision procedure accepts exactly the strings the regular expression matches. */
  lemma IsEmailCorrect(s: string)
    ensures IsEmail(s) <==> InEmailLanguage(s)
  {
    if IsEmail(s) {
      IsEmailSound(s);
    }
    if InEmailLanguage(s) {
      var at: nat, dot: nat :|
        && 0 < at && at + 1 < dot && dot + 1 < |s|
        && s[at] == '@' && s[dot] == '.'
        && AllPlain(s[..at]) && AllPlain(s[at + 1..dot]) && AllPlain(s[dot + 1..]);
      IsEmailComplete(s, at, dot);
    }
  }

  /** Two `@` signs are never accepted. */
  lemma SecondAtRejected(s: string, i: nat, j: nat)
    requires i < j < |s| && s[i] == '@' && s[j] == '@'
    ensures !IsEmail(s)
  {
  }
}
