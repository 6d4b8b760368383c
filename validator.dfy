/** The `password_strength` validation rule: a password must contain an ASCII capital letter,
    an ASCII small letter, a decimal digit and one of 32 ASCII punctuation characters. Each
    requirement is a regular-expression character class searched anywhere in the text. */
module Validator {

  /** The four character classes the rule requires. */
  datatype CharClass = Upper | Lower | Digit | Special

  /** The characters of `[!@#$%^&*()_+\-=\[\]{};':"\\|,.<>\/?~` followed by a backquote. */
  const SpecialChars: set<char> := {
    '!', '@', '#', '$', '%', '^', '&', '*', '(', ')', '_', '+', '-', '=', '[', ']', '{', '}',
    ';', '\'', ':', '"', '\\', '|', ',', '.', '<', '>', '/', '?', '~', '`'
  }

  predicate InClass(c: char, cls: CharClass) {
    match cls
    case Upper => 'A' <= c <= 'Z'
    case Lower => 'a' <= c <= 'z'
    case Digit => '0' <= c <= '9'
    case Special => c in SpecialChars
  }

  /** Some character of `s` is in `cls`. */
  ghost predicate Has(s: string, cls: CharClass) {
    exists i :: 0 <= i < |s| && InClass(s[i], cls)
  }

  /** `regexp.MatchString` for a one-character class: a left-to-right scan that stops at the
      first match. */
  function MatchesClass(s: string, cls: CharClass): (r: bool)
    ensures r <==> Has(s, cls)
  {
    if s == [] then false
    else if InClass(s[0], cls) then true
    else
      assert forall i :: 0 < i < |s| ==> s[i] == s[1..][i - 1];
      MatchesClass(s[1..], cls)
  }

  /** `PasswordStrength`: the four searches, in order, each of which can reject. */
  function PasswordStrength(password: string): (ok: bool)
    ensures ok <==> Has(password, Upper) && Has(password, Lower) && Has(password, Digit)
                    && Has(password, Special)
  {
    if !MatchesClass(password, Upper) then false
    else if !MatchesClass(password, Lower) then false
    else if !MatchesClass(password, Digit) then false
    else if !MatchesClass(password, Special) then false
    else true
  }

  // ---------------------------------------------------------------------------------------

  /** A password without any character of one class is rejected, whatever else it holds. */
  lemma MissingClassRejects(password: string, cls: CharClass)
    requires forall i :: 0 <= i < |password| ==> !InClass(password[i], cls)
    ensures !PasswordStrength(password)
  {
  }

  /** Appending text to an accepted password keeps it accepted: each class is only searched
      for. */
  lemma {:induction false} AppendKeepsStrength(password: string, more: string)
    requires PasswordStrength(password)
    ensures PasswordStrength(password + more)
  {
    forall cls | Has(password, cls)
      ensures Has(password + more, cls)
    {
      var i :| 0 <= i < |password| && InClass(password[i], cls);
      assert (password + more)[i] == password[i];
    }
  }

  /** Every character any class accepts is ASCII: letters with accents, digits of other scripts
      and non-ASCII punctuation never count. */
  lemma ClassesAreAscii(c: char, cls: CharClass)
    requires InClass(c, cls)
    ensures c < '\U{80}'
  {
  }

  /** The space character belongs to no class. */
  lemma SpaceInNoClass(cls: CharClass)
    ensures !InClass(' ', cls)
  {
  }
}
