/** The pieces of Python's string behaviour that the spawner and setup script rely on. */
module PyText {

  /** `str.isspace()`: the characters `str.strip()` removes and `\s` matches in a str pattern. */
  predicate IsSpace(c: char) {
    var n := c as int;
    (9 <= n <= 13) || (28 <= n <= 32) || n == 0x85 || n == 0xA0 || n == 0x1680
    || (0x2000 <= n <= 0x200A) || n == 0x2028 || n == 0x2029 || n == 0x202F
    || n == 0x205F || n == 0x3000
  }

  /** The ASCII whitespace that `int()` skips around a literal: space, tab, LF, VT, FF, CR. */
  predicate IsAsciiSpace(c: char) {
    c == ' ' || ('\t' <= c <= '\r')
  }

  predicate IsDigit(c: char) {
    '0' <= c <= '9'
  }

  /** `\w` restricted to ASCII: letters, digits and the underscore. */
  predicate IsWordChar(c: char) {
    ('a' <= c <= 'z') || ('A' <= c <= 'Z') || IsDigit(c) || c == '_'
  }

  /** `str.startswith(prefix)`. */
  predicate StartsWith(s: string, prefix: string) {
    |prefix| <= |s| && s[..|prefix|] == prefix
  }

  /** The number of leading characters of `s` for which `space` holds. */
  function LeadingCount(s: string, space: char -> bool): (n: nat)
    ensures n <= |s|
    ensures forall i :: 0 <= i < n ==> space(s[i])
    ensures n == |s| || !space(s[n])
    decreases |s|
  {
    if s != [] && space(s[0]) then 1 + LeadingCount(s[1..], space) else 0
  }

  /** The number of trailing characters of `s` for which `space` holds. */
  function TrailingCount(s: string, space: char -> bool): (n: nat)
    ensures n <= |s|
    ensures forall i :: |s| - n <= i < |s| ==> space(s[i])
    ensures n == |s| || !space(s[|s| - n - 1])
    decreases |s|
  {
    if s != [] && space(s[|s| - 1]) then 1 + TrailingCount(s[..|s| - 1], space) else 0
  }

  /**
   * Both ends trimmed: the slice of `s` between its leading and its trailing run of
   * `space` characters, empty when `s` is all `space`.
   */
  function Trim(s: string, space: char -> bool): (r: string)
    ensures LeadingCount(s, space) + |r| <= |s|
    ensures forall i :: 0 <= i < |r| ==> r[i] == s[LeadingCount(s, space) + i]
    ensures forall i :: LeadingCount(s, space) + |r| <= i < |s| ==> space(s[i])
    ensures r == [] || (!space(r[0]) && !space(r[|r| - 1]))
    ensures r == [] <==> forall i :: 0 <= i < |s| ==> space(s[i])
  {
    var lead := LeadingCount(s, space);
    if lead == |s| then []
    else
      var trail := TrailingCount(s, space);
      assert !space(s[lead]);
      s[lead..|s| - trail]
  }

  /** `str.strip()` with no argument. */
  function Strip(s: string): string {
    Trim(s, IsSpace)
  }

  /** Trimming leaves a string alone whose ends are not `space`. */
  lemma TrimUnchanged(s: string, space: char -> bool)
    requires s == [] || (!space(s[0]) && !space(s[|s| - 1]))
    ensures Trim(s, space) == s
  {
  }

  /** Stripping a stripped string changes nothing. */
  lemma StripIdempotent(s: string)
    ensures Strip(Strip(s)) == Strip(s)
  {
    TrimUnchanged(Strip(s), IsSpace);
  }
}
