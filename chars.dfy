/**
 * Character classes used by the card-number pipeline.
 *
 * Digits are the ASCII decimal digits '0'..'9'. Whitespace is the set of code
 * points that Python's `\s` matches in a str pattern (the same set for which
 * `str.isspace()` holds); the proofs only rely on it containing no digit.
 */
module Chars {

  /** `\d`, restricted to ASCII. */
  predicate IsDigit(c: char) {
    '0' <= c <= '9'
  }

  /** `\s` in a str pattern. */
  predicate IsSpace(c: char) {
    var n := c as int;
    (0x09 <= n <= 0x0D) || (0x1C <= n <= 0x20) || n == 0x85 || n == 0xA0 || n == 0x1680 ||
    (0x2000 <= n <= 0x200A) || n == 0x2028 || n == 0x2029 || n == 0x202F || n == 0x205F || n == 0x3000
  }

  /** The character class `[\s-]` allowed between two digits of a card number. */
  predicate IsSeparator(c: char)
    ensures IsSeparator(c) ==> !IsDigit(c)
  {
    IsSpace(c) || c == '-'
  }

  /** `int(c)` for one ASCII digit. */
  function DigitValue(c: char): (d: nat)
    requires IsDigit(c)
    ensures d <= 9
    ensures c == '0' + d as char
  {
    (c - '0') as nat
  }

  predicate AllDigits(s: string) {
    forall k :: 0 <= k < |s| ==> IsDigit(s[k])
  }

  /** `s.isdigit()`: false on the empty string, as in Python. */
  predicate IsDigitString(s: string) {
    |s| > 0 && AllDigits(s)
  }

}
