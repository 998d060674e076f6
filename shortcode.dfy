/**
 * Shortcodes: the pattern `^[a-zA-Z0-9-_]{3,20}$` that both the store and
 * the form validate against, and the 62-character alphabet random codes
 * are drawn from.
 */
module Shortcode {

  const MinLength := 3
  const MaxLength := 20

  /** The `i`-th character of the alphabet: lower case, then upper case, then digits. */
  function AlphabetChar(i: nat): char
    requires i < 62
  {
    if i < 26 then ('a' as int + i) as char
    else if i < 52 then ('A' as int + i - 26) as char
    else ('0' as int + i - 52) as char
  }

  /** The characters random shortcodes are drawn from, in the source's order: a-z, A-Z, 0-9. */
  function Alphabet(): (s: string)
    ensures |s| == 62 && forall i :: 0 <= i < 62 ==> s[i] == AlphabetChar(i)
  {
    seq(62, i requires 0 <= i < 62 => AlphabetChar(i))
  }

  predicate IsAlnum(c: char) {
    'a' <= c <= 'z' || 'A' <= c <= 'Z' || '0' <= c <= '9'
  }

  /** The character class `[a-zA-Z0-9-_]`. */
  predicate IsShortcodeChar(c: char) {
    IsAlnum(c) || c == '-' || c == '_'
  }

  /** Every character of `s` is drawn from `Alphabet`. */
  predicate OverAlphabet(s: string) {
    forall i :: 0 <= i < |s| ==> s[i] in Alphabet()
  }

  /** The reference meaning of the pattern: 3 to 20 characters of the class. */
  ghost predicate WellFormed(s: string) {
    MinLength <= |s| <= MaxLength && forall i :: 0 <= i < |s| ==> IsShortcodeChar(s[i])
  }

  /** Scans `s` left to right, as the anchored character-class pattern does. */
  predicate AllShortcodeChars(s: string) {
    s == [] || (IsShortcodeChar(s[0]) && AllShortcodeChars(s[1..]))
  }

  /** `validateShortcode(code)`: `/^[a-zA-Z0-9-_]{3,20}$/.test(code)`. */
  predicate ValidateShortcode(code: string) {
    MinLength <= |code| <= MaxLength && AllShortcodeChars(code)
  }

  lemma {:induction false} AllShortcodeCharsIff(s: string)
    ensures AllShortcodeChars(s) <==> forall i :: 0 <= i < |s| ==> IsShortcodeChar(s[i])
  {
    if s != [] {
      AllShortcodeCharsIff(s[1..]);
      assert forall i :: 1 <= i < |s| ==> s[i] == s[1..][i - 1];
    }
  }

  /** The scanner accepts exactly the well-formed shortcodes. */
  lemma ValidateShortcodeIff(code: string)
    ensures ValidateShortcode(code) <==> WellFormed(code)
  {
    AllShortcodeCharsIff(code);
  }

  /** The alphabet is exactly the alphanumeric characters. */
  lemma AlphabetIsAlnum(c: char)
    ensures c in Alphabet() <==> IsAlnum(c)
  {
    if IsAlnum(c) {
      if 'a' <= c <= 'z' {
        assert Alphabet()[c as int - 'a' as int] == c;
      } else if 'A' <= c <= 'Z' {
        assert Alphabet()[26 + c as int - 'A' as int] == c;
      } else {
        assert Alphabet()[52 + c as int - '0' as int] == c;
      }
    }
  }

  /** A code over the alphabet of a length the pattern admits passes validation. */
  lemma GeneratedCodeIsValid(code: string)
    requires OverAlphabet(code) && MinLength <= |code| <= MaxLength
    ensures ValidateShortcode(code)
  {
    forall i | 0 <= i < |code| ensures IsShortcodeChar(code[i]) {
      AlphabetIsAlnum(code[i]);
    }
    ValidateShortcodeIff(code);
  }
}
