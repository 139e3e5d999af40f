/** The two rune classifications of Go's `unicode` package that the core relies on:
    `unicode.IsSpace` (used directly by CleanText and through `strings.TrimSpace`
    and `strings.Fields`) and `unicode.ToLower` (used by CleanText). */
module Runes {

  /** Go's `unicode.IsSpace`: the Latin-1 spaces '\t', '\n', '\v', '\f', '\r', ' ',
      U+0085 (NEL) and U+00A0 (NBSP), and above Latin-1 the runes with the Unicode
      White_Space property. */
  predicate IsSpace(c: char) {
    || c == '\t' || c == '\n' || c == '\U{000B}' || c == '\U{000C}' || c == '\r' || c == ' '
    || c == '\U{0085}' || c == '\U{00A0}'
    || c == '\U{1680}'
    || ('\U{2000}' <= c <= '\U{200A}')
    || c == '\U{2028}' || c == '\U{2029}' || c == '\U{202F}' || c == '\U{205F}'
    || c == '\U{3000}'
  }

  /** Go's `unicode.ToLower` on the capital letters of Basic Latin, Latin-1, basic
      Greek and basic Cyrillic, and on U+1E9E (capital sharp s). Every other rune
      is returned unchanged. */
  function ToLower(c: char): (r: char)
    ensures IsSpace(r) <==> IsSpace(c)
  {
    if 'A' <= c <= 'Z' then (c as int + 32) as char
    else if ('\U{00C0}' <= c <= '\U{00DE}') && c != '\U{00D7}' then (c as int + 32) as char
    else if ('\U{0391}' <= c <= '\U{03A9}') && c != '\U{03A2}' then (c as int + 32) as char
    else if '\U{0400}' <= c <= '\U{040F}' then (c as int + 80) as char
    else if '\U{0410}' <= c <= '\U{042F}' then (c as int + 32) as char
    else if c == '\U{1E9E}' then '\U{00DF}'
    else c
  }

  /** Lowering a rune twice is lowering it once. */
  lemma ToLowerIdempotent(c: char)
    ensures ToLower(ToLower(c)) == ToLower(c)
  {
  }
}
