/**
 * The field validators of server/utils/validators.js: total predicates on the
 * strings of a request body. Lengths are counted in characters.
 */
module Validators {

  predicate IsAsciiUpper(c: char) {
    'A' <= c <= 'Z'
  }

  predicate IsAsciiAlphanumeric(c: char) {
    'A' <= c <= 'Z' || 'a' <= c <= 'z' || '0' <= c <= '9'
  }

  /** A member of the character class `[^A-Za-z0-9]`. */
  predicate IsSpecial(c: char) {
    !IsAsciiAlphanumeric(c)
  }

  /** The characters JavaScript's `\s` matches. */
  predicate IsWhitespace(c: char) {
    || '\t' <= c <= '\r'
    || c == ' ' || c == '\U{00A0}' || c == '\U{1680}'
    || '\U{2000}' <= c <= '\U{200A}'
    || c == '\U{2028}' || c == '\U{2029}' || c == '\U{202F}' || c == '\U{205F}'
    || c == '\U{3000}' || c == '\U{FEFF}'
  }

  /** `/[class]/.test(s)`: scans `s` from the left for a character of the class. */
  function Search(s: string, inClass: char -> bool): (found: bool)
    ensures found <==> exists i | 0 <= i < |s| :: inClass(s[i])
  {
    if s == [] then false
    else inClass(s[0]) || Search(s[1..], inClass)
  }

  /** `isStrongPassword`: 8 to 16 characters, an ASCII capital and a character outside `[A-Za-z0-9]`. */
  function IsStrongPassword(password: string): (strong: bool)
    ensures strong <==>
      && 8 <= |password| <= 16
      && (exists i | 0 <= i < |password| :: IsAsciiUpper(password[i]))
      && (exists i | 0 <= i < |password| :: !IsAsciiAlphanumeric(password[i]))
  {
    var lengthOk := 8 <= |password| <= 16;
    var hasUpper := Search(password, IsAsciiUpper);
    var hasSpecial := Search(password, IsSpecial);
    lengthOk && hasUpper && hasSpecial
  }

  /** A password of letters and digits only is never strong, whatever its length. */
  lemma AlphanumericNeverStrong(password: string)
    requires forall i | 0 <= i < |password| :: IsAsciiAlphanumeric(password[i])
    ensures !IsStrongPassword(password)
  {
  }

  lemma StrongPasswordExamples()
    ensures IsStrongPassword("Abcdef1!")
    ensures !IsStrongPassword("abcdefg1")
  {
    assert IsAsciiUpper("Abcdef1!"[0]) && IsSpecial("Abcdef1!"[7]);
    AlphanumericNeverStrong("abcdefg1");
  }

  /** `validateName`: a present name of 20 to 60 characters. */
  function ValidateName(name: string): (ok: bool)
    ensures ok <==> 20 <= |name| <= 60
  {
    name != "" && 20 <= |name| && |name| <= 60
  }

  /** `validateAddress`: the `address &&` guard rejects the empty string; at most 400 characters. */
  function ValidateAddress(address: string): (ok: bool)
    ensures ok <==> 1 <= |address| <= 400
  {
    address != "" && |address| <= 400
  }

  /** A run that `[^\s@]+` matches: non-empty, with neither whitespace nor '@'. */
  predicate PlainRun(s: string) {
    |s| > 0 && forall i | 0 <= i < |s| :: !IsWhitespace(s[i]) && s[i] != '@'
  }

  /**
   * `^[^\s@]+@[^\s@]+\.[^\s@]+$` matches `email` with its '@' at index `at`
   * and its literal '.' at index `dot`.
   */
  predicate EmailMatchAt(email: string, at: nat, dot: nat) {
    && at < dot < |email|
    && email[at] == '@' && email[dot] == '.'
    && PlainRun(email[..at]) && PlainRun(email[at + 1..dot]) && PlainRun(email[dot + 1..])
  }

  /**
   * `validateEmail`: the regular expression matches under some choice of '@'
   * and '.'; the shortest address it accepts has five characters ("a@b.c").
   */
  function ValidateEmail(email: string): (ok: bool)
    ensures ok ==> 5 <= |email| && '@' in email && '.' in email
  {
    exists at: nat, dot: nat | at < dot < |email| :: EmailMatchAt(email, at, dot)
  }

  predicate NoWhitespace(s: string) {
    forall i | 0 <= i < |s| :: !IsWhitespace(s[i])
  }

  /** `s[at]` is the one and only '@' of `s`. */
  predicate SoleAtSign(s: string, at: nat) {
    at < |s| && s[at] == '@' && forall i | 0 <= i < |s| && i != at :: s[i] != '@'
  }

  /** The part after index `at` holds a '.' that is neither its first nor its last character. */
  predicate InnerDot(s: string, at: nat) {
    exists d | at + 1 < d < |s| - 1 :: s[d] == '.'
  }

  /** A match of the pattern has no whitespace, its '@' is the only one, and the domain has an inner '.'. */
  lemma MatchIsPlain(email: string, at: nat, dot: nat)
    requires EmailMatchAt(email, at, dot)
    ensures NoWhitespace(email) && SoleAtSign(email, at) && InnerDot(email, at)
  {
    var local, domain, top := email[..at], email[at + 1..dot], email[dot + 1..];
    forall i | 0 <= i < |email|
      ensures !IsWhitespace(email[i]) && (i != at ==> email[i] != '@')
    {
      if i < at {
        assert email[i] == local[i];
      } else if at < i < dot {
        assert email[i] == domain[i - at - 1];
      } else if dot < i {
        assert email[i] == top[i - dot - 1];
      }
    }
    assert at + 1 < dot < |email| - 1 && email[dot] == '.';
  }

  /** Conversely, such an address matches the pattern at its '@' and any inner '.' of the domain. */
  lemma PlainIsMatch(email: string, at: nat, dot: nat)
    requires NoWhitespace(email) && SoleAtSign(email, at) && 0 < at
    requires at + 1 < dot < |email| - 1 && email[dot] == '.'
    ensures EmailMatchAt(email, at, dot)
  {
    var local, domain, top := email[..at], email[at + 1..dot], email[dot + 1..];
    forall i | 0 <= i < |local| ensures !IsWhitespace(local[i]) && local[i] != '@' {
      assert local[i] == email[i];
    }
    forall i | 0 <= i < |domain| ensures !IsWhitespace(domain[i]) && domain[i] != '@' {
      assert domain[i] == email[at + 1 + i];
    }
    forall i | 0 <= i < |top| ensures !IsWhitespace(top[i]) && top[i] != '@' {
      assert top[i] == email[dot + 1 + i];
    }
  }

  /**
   * What the email pattern accepts, stated without the regular expression:
   * no whitespace, exactly one '@' with a non-empty part before it, and a
   * domain whose '.' is neither its first nor its last character.
   */
  lemma ValidateEmailIff(email: string)
    ensures ValidateEmail(email) <==>
      && NoWhitespace(email)
      && exists at: nat | 0 < at < |email| :: SoleAtSign(email, at) && InnerDot(email, at)
  {
    if ValidateEmail(email) {
      var at: nat, dot: nat :| at < dot < |email| && EmailMatchAt(email, at, dot);
      MatchIsPlain(email, at, dot);
    }
    if && NoWhitespace(email)
       && exists at: nat | 0 < at < |email| :: SoleAtSign(email, at) && InnerDot(email, at)
    {
      var at: nat :| 0 < at < |email| && SoleAtSign(email, at) && InnerDot(email, at);
      var dot :| at + 1 < dot < |email| - 1 && email[dot] == '.';
      PlainIsMatch(email, at, dot);
    }
  }

  /** Two '@' characters anywhere make an address invalid. */
  lemma TwoAtSignsRejected(email: string, i: nat, j: nat)
    requires i < j < |email| && email[i] == '@' && email[j] == '@'
    ensures !ValidateEmail(email)
  {
    ValidateEmailIff(email);
  }

  /** A whitespace character anywhere (a space, a tab, ...) makes an address invalid. */
  lemma WhitespaceRejected(email: string, i: nat)
    requires i < |email| && IsWhitespace(email[i])
    ensures !ValidateEmail(email)
  {
    ValidateEmailIff(email);
  }
}
