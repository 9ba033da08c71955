/** The few pieces of Java and Spring string semantics the configuration relies on. */
module JavaText {

  /** `s.startsWith(prefix)`. */
  predicate StartsWith(s: string, prefix: string) {
    prefix <= s
  }

  /** `Character.isWhitespace(c)`: the ASCII controls TAB to CR, the four information
      separators, and the Unicode space, line and paragraph separators except the
      three no-break spaces. */
  predicate IsWhitespace(c: char) {
    ('\t' <= c <= '\r') || ('\U{1C}' <= c <= '\U{1F}') || c == ' ' ||
    c == '\U{1680}' || ('\U{2000}' <= c <= '\U{2006}') || ('\U{2008}' <= c <= '\U{200A}') ||
    c == '\U{2028}' || c == '\U{2029}' || c == '\U{205F}' || c == '\U{3000}'
  }

  /** Spring's `StringUtils.hasText(s)`: some character is not whitespace. */
  predicate HasText(s: string)
    ensures HasText(s) ==> s != []
    ensures s != [] && !IsWhitespace(s[0]) ==> HasText(s)
  {
    exists i :: 0 <= i < |s| && !IsWhitespace(s[i])
  }

  /** The characters that end a line for `java.util.regex` (no UNIX_LINES flag),
      which `.` does not match. */
  predicate IsLineTerminator(c: char) {
    c == '\n' || c == '\r' || c == '\U{85}' || c == '\U{2028}' || c == '\U{2029}'
  }

  /** The strings matched by the regex `.*`. */
  predicate AnyLineChars(s: string) {
    forall i :: 0 <= i < |s| ==> !IsLineTerminator(s[i])
  }
}
