/** Classes of characters that both the credit parser and the estimator go by. */
module Characters {
  predicate IsDigit(ch: char) {
    '0' <= ch <= '9'
  }

  /** White space outside ASCII. */
  predicate IsWideSpace(code: int) {
    || code == 0x85 || code == 0xA0 || code == 0x1680 || 0x2000 <= code <= 0x200A
    || code == 0x2028 || code == 0x2029 || code == 0x202F || code == 0x205F || code == 0x3000
  }

  /** Unicode white space, as `str::trim` understands it. */
  predicate IsSpace(ch: char) {
    0x9 <= ch as int <= 0xD || ch == ' ' || IsWideSpace(ch as int)
  }
}
