/** Character classes used by the field patterns of the validator.

    Python's `re` module, applied to `str` patterns, uses Unicode classes for
    `\d`, `\w` and `\s`. This module fixes the finite approximations the model
    works with: `\d` is the ASCII digits, `\w` is ASCII letters, digits and `_`
    together with the basic Cyrillic letters U+0400..U+045F, and `\s` is exactly
    the set of characters for which Python's `str.isspace` holds.
 */
module CharClasses {

  /** `\d` */
  predicate IsDigit(c: char) {
    '0' <= c <= '9'
  }

  /** `\D` */
  predicate IsNonDigit(c: char) {
    !IsDigit(c)
  }

  /** `[A-Z]` */
  predicate IsLatinUpper(c: char) {
    'A' <= c <= 'Z'
  }

  /** `[a-zA-Z]` */
  predicate IsLatinLetter(c: char) {
    IsLatinUpper(c) || 'a' <= c <= 'z'
  }

  /** `[А-Я]`: U+0410..U+042F, which leaves out `Ё` (U+0401). */
  predicate IsCyrillicUpper(c: char) {
    'А' <= c <= 'Я'
  }

  /** The basic Cyrillic block U+0400..U+045F; every character in it is a letter. */
  predicate IsCyrillicLetter(c: char) {
    'Ѐ' <= c <= 'џ'
  }

  /** `\w` */
  predicate IsWordChar(c: char) {
    IsLatinLetter(c) || IsDigit(c) || c == '_' || IsCyrillicLetter(c)
  }

  /** `\s`: the characters Python's `str.isspace` accepts. */
  predicate IsSpace(c: char) {
    || '\t' <= c <= '\r'
    || '\U{1C}' <= c <= ' '
    || c == '\U{85}'
    || c == '\U{A0}'
    || c == '\U{1680}'
    || '\U{2000}' <= c <= '\U{200A}'
    || c == '\U{2028}'
    || c == '\U{2029}'
    || c == '\U{202F}'
    || c == '\U{205F}'
    || c == '\U{3000}'
  }

  /** `[a-zA-Z_]`, the domain part of an e-mail address. */
  predicate IsDomainChar(c: char) {
    IsLatinLetter(c) || c == '_'
  }

  /** `[\w\.\s-]`, the street part of an address. */
  predicate IsStreetChar(c: char) {
    IsWordChar(c) || c == '.' || IsSpace(c) || c == '-'
  }

  /** Every character of `s` belongs to the class `p`. */
  predicate All(s: string, p: char -> bool) {
    forall i :: 0 <= i < |s| ==> p(s[i])
  }

  /** `s` contains no character of `\d`. */
  predicate NoDigit(s: string) {
    All(s, IsNonDigit)
  }

  /** The value of a decimal digit. */
  function DigitValue(c: char): (d: nat)
    requires IsDigit(c)
    ensures d < 10
  {
    (c - '0') as nat
  }

  /** The decimal digit for `d`; `DigitValue` inverts it. */
  function DigitChar(d: nat): (c: char)
    requires d < 10
    ensures IsDigit(c)
    ensures DigitValue(c) == d
  {
    ('0' as int + d) as char
  }
}
