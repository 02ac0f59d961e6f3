/** The two text predicates of the Java platform and of Spring's `StringUtils` that the
    local-region resolver and the cache parser rely on. */
module JavaStrings {
  import opened Results

  /** `Character.isWhitespace`: the ASCII controls TAB, LF, VT, FF, CR and FS..US, and the
      Unicode space, line and paragraph separators other than the non-breaking spaces
      U+00A0, U+2007 and U+202F. */
  predicate IsWhitespace(c: char) {
    var n := c as int;
    || 0x09 <= n <= 0x0D
    || 0x1C <= n <= 0x20
    || n == 0x1680
    || 0x2000 <= n <= 0x2006
    || 0x2008 <= n <= 0x200A
    || n == 0x2028 || n == 0x2029
    || n == 0x205F
    || n == 0x3000
  }

  /** True when some character of `s` is not whitespace. */
  function ContainsText(s: string): (r: bool)
    ensures r <==> exists i :: 0 <= i < |s| && !IsWhitespace(s[i])
  {
    if s == [] then false
    else if !IsWhitespace(s[0]) then true
    else ContainsText(s[1..])
  }

  /** `StringUtils.hasText`: the reference is not null and the text is not blank. */
  function HasText(s: Option<string>): (r: bool)
    ensures r <==> s.Some? && exists i :: 0 <= i < |s.value| && !IsWhitespace(s.value[i])
  {
    s.Some? && ContainsText(s.value)
  }
}
