/**
 * The whitespace test that the quoter applies to every rune: Go's
 * `unicode.IsSpace`. Runes up to U+00FF are spaces exactly when they are one
 * of the eight Latin-1 space characters; above U+00FF a rune is a space
 * exactly when it carries the Unicode White_Space property.
 */
module Unicode {

  /** The White_Space code points, listed one by one. */
  const WhiteSpace: set<char> := {
    '\t', '\n', '\U{000B}', '\U{000C}', '\r', ' ', '\U{0085}', '\U{00A0}',
    '\U{1680}',
    '\U{2000}', '\U{2001}', '\U{2002}', '\U{2003}', '\U{2004}', '\U{2005}',
    '\U{2006}', '\U{2007}', '\U{2008}', '\U{2009}', '\U{200A}',
    '\U{2028}', '\U{2029}', '\U{202F}', '\U{205F}', '\U{3000}'
  }

  predicate IsSpace(c: char) {
    if c as int <= 0xFF then
      c == '\t' || c == '\n' || c == '\U{000B}' || c == '\U{000C}' || c == '\r'
      || c == ' ' || c == '\U{0085}' || c == '\U{00A0}'
    else
      c == '\U{1680}' || ('\U{2000}' <= c <= '\U{200A}')
      || c == '\U{2028}' || c == '\U{2029}' || c == '\U{202F}'
      || c == '\U{205F}' || c == '\U{3000}'
  }

  /** Go's two-tier test (a Latin-1 switch, then the White_Space ranges) picks out exactly `WhiteSpace`. */
  lemma IsSpaceExactly(c: char)
    ensures IsSpace(c) <==> c in WhiteSpace
  {
  }
}
