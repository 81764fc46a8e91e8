/** The string predicates of Apache commons-lang `StringUtils` that the
    container client relies on. A Java `String` that may be null is an
    `Option<string>`; `None` is null. */
module JavaStrings {
  import opened Wrappers

  /** `Character.isWhitespace`: the ASCII controls TAB..CR and FS..US, the
      space, and the Unicode space, line and paragraph separators except the
      three non-breaking ones (U+00A0, U+2007, U+202F). */
  predicate IsWhitespace(c: char)
  {
    var n := c as int;
    || (0x09 <= n <= 0x0D)
    || (0x1C <= n <= 0x20)
    || n == 0x1680
    || (0x2000 <= n <= 0x2006)
    || (0x2008 <= n <= 0x200A)
    || n == 0x2028 || n == 0x2029 || n == 0x205F || n == 0x3000
  }

  /** `StringUtils.isEmpty`: null or of length zero. */
  predicate IsEmpty(s: Option<string>)
  {
    s.None? || |s.value| == 0
  }

  /** `StringUtils.isBlank`: null, empty, or whitespace only. */
  predicate IsBlank(s: Option<string>)
  {
    s.None? || forall i :: 0 <= i < |s.value| ==> IsWhitespace(s.value[i])
  }

  /** Every empty string is blank; a blank string need not be empty. */
  lemma EmptyIsBlank(s: Option<string>)
    ensures IsEmpty(s) ==> IsBlank(s)
    ensures IsBlank(Some(" ")) && !IsEmpty(Some(" "))
  {
    assert IsWhitespace(" "[0]);
  }
}
