/** Character classes the validator relies on: the ASCII decimal digits that the
    `[0-9]` and `\d` classes of the issuer patterns accept, and the characters
    that JavaScript's string-to-number conversion treats as white space. */
module Chars {

  /** The ten characters '0' to '9' (JavaScript's `\d` is ASCII-only). */
  predicate IsDigit(c: char) {
    '0' <= c <= '9'
  }

  /** The numeric value of a decimal digit character. */
  function DigitValue(c: char): (d: int)
    requires IsDigit(c)
    ensures 0 <= d <= 9
  {
    (c as int) - ('0' as int)
  }

  /** Characters the ECMAScript grammar StrWhiteSpaceChar accepts: the
      WhiteSpace code points (tab, vertical tab, form feed, space, no-break
      space, the byte-order mark and every "Zs" space separator) and the
      LineTerminator code points (line feed, carriage return, line separator
      and paragraph separator). `Number` maps a string made only of these to 0. */
  const JsWhiteSpace: set<char> :=
    { '\t', '\U{000B}', '\U{000C}', ' ', '\U{00A0}', '\U{FEFF}',
      '\U{1680}', '\U{2000}', '\U{2001}', '\U{2002}', '\U{2003}', '\U{2004}',
      '\U{2005}', '\U{2006}', '\U{2007}', '\U{2008}', '\U{2009}', '\U{200A}',
      '\U{202F}', '\U{205F}', '\U{3000}',
      '\n', '\r', '\U{2028}', '\U{2029}' }

  predicate IsJsWhiteSpace(c: char) {
    c in JsWhiteSpace
  }

  /** Every character of `s` is a decimal digit. */
  predicate AllDigits(s: string) {
    forall i :: 0 <= i < |s| ==> IsDigit(s[i])
  }
}
