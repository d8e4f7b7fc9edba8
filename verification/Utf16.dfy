/**
 Text as the program sees it: a sequence of UTF-16 code units, lone surrogates included.
 Dafny's `char` has no surrogates, so a code unit is a bounded integer here.
 */
module Utf16 {

  newtype CodeUnit = c: int | 0 <= c < 0x1_0000

  type Text = seq<CodeUnit>

  const TAB: CodeUnit := 0x09
  const NEWLINE: CodeUnit := 0x0A
  const VERTICAL_TAB: CodeUnit := 0x0B
  const SPACE: CodeUnit := 0x20
  const QUOTE: CodeUnit := 0x22
  const BACKSLASH: CodeUnit := 0x5C

  predicate IsHighSurrogate(c: CodeUnit) { 0xD800 <= c <= 0xDBFF }

  predicate IsLowSurrogate(c: CodeUnit) { 0xDC00 <= c <= 0xDFFF }

  /** A high surrogate followed by a low one starts at `i`. */
  predicate PairAt(s: Text, i: int) {
    0 <= i && i + 1 < |s| && IsHighSurrogate(s[i]) && IsLowSurrogate(s[i + 1])
  }

  /** No surrogate stands alone, so a strict encoder accepts the text. */
  ghost predicate WellFormed(s: Text) {
    && (forall i :: 0 <= i < |s| && IsHighSurrogate(s[i]) ==> PairAt(s, i))
    && (forall i :: 0 <= i < |s| && IsLowSurrogate(s[i]) ==> PairAt(s, i - 1))
  }
}
