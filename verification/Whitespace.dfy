/** What the two languages of the sources call whitespace. */
module Whitespace {
  /** Spaces both JavaScript and Python know. */
  predicate IsCommonSpace(c: char) {
    || c == ' ' || c == '\t' || c == '\n' || c == '\r' || c == '\U{000B}' || c == '\U{000C}'
    || c == '\U{00A0}' || c == '\U{1680}' || '\U{2000}' <= c <= '\U{200A}'
    || c == '\U{2028}' || c == '\U{2029}' || c == '\U{202F}' || c == '\U{205F}' || c == '\U{3000}'
  }

  /** `\s` and `trim` in JavaScript. */
  predicate IsScriptSpace(c: char) {
    IsCommonSpace(c) || c == '\U{FEFF}'
  }

  /** `\s` and `str.strip` in Python. */
  predicate IsPythonSpace(c: char) {
    IsCommonSpace(c) || '\U{001C}' <= c <= '\U{001F}' || c == '\U{0085}'
  }
}
