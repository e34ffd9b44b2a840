/** Character classes and the few string helpers of Python's `str` that the
    scraper relies on. Digits are ASCII only; case-insensitive comparison knows
    the ASCII letters and the Polish pair Ę/ę that occurs in the keywords. */
module Chars {

  /** `\d`, restricted to ASCII. */
  predicate IsDigit(c: char) {
    '0' <= c <= '9'
  }

  function DigitValue(c: char): (d: nat)
    requires IsDigit(c)
    ensures d < 10
  {
    c as int - '0' as int
  }

  function DigitChar(d: nat): (c: char)
    requires d < 10
    ensures IsDigit(c) && DigitValue(c) == d
  {
    ('0' as int + d) as char
  }

  /** `\s` for a `str` pattern, and `str.isspace()`: the characters Python
      calls whitespace. */
  predicate IsSpace(c: char) {
    || c == ' '
    || '\t' <= c <= '\r'
    || '\U{1C}' <= c <= '\U{1F}'
    || c == '\U{85}'
    || c == '\U{A0}'
    || c == '\U{1680}'
    || '\U{2000}' <= c <= '\U{200A}'
    || c == '\U{2028}'
    || c == '\U{2029}'
    || c == '\U{202F}'
    || c == '\U{205F}'
    || c == '\U{3000}'
  }

  /** The two digit-grouping separators that `parse_int` deletes: ASCII space
      and NO-BREAK SPACE. */
  predicate IsSeparator(c: char) {
    c == ' ' || c == '\U{A0}'
  }

  /** `[A-Z]` under `re.I`. */
  predicate IsLetter(c: char) {
    'A' <= c <= 'Z' || 'a' <= c <= 'z'
  }

  /** Lower-case folding as far as the model needs it. */
  function Lower(c: char): (l: char)
    ensures l == c || IsLetter(c) || c == 'Ę'
    ensures !('A' <= l <= 'Z') && l != 'Ę'
    ensures IsLetter(l) <==> IsLetter(c)
  {
    if 'A' <= c <= 'Z' then (c as int + 32) as char
    else if c == 'Ę' then 'ę'
    else c
  }

  /** Does the lower-case keyword `kw` occur at position `p` of `s`, ignoring case? */
  predicate KeywordAt(s: string, p: nat, kw: string) {
    p + |kw| <= |s| && forall i | 0 <= i < |kw| :: Lower(s[p + i]) == kw[i]
  }

  predicate AllSpace(s: string) {
    forall i | 0 <= i < |s| :: IsSpace(s[i])
  }

  /** The information separators U+001C-U+001F: whitespace to `\s` and to
      `str.isspace()`, but not to `int()`. */
  predicate IsInfoSeparator(c: char) {
    '\U{1C}' <= c <= '\U{1F}'
  }

  /** The whitespace that `int()` skips around a number: C's `isspace` for
      ASCII characters, `str.isspace()` for the others. */
  predicate IsIntSpace(c: char) {
    IsSpace(c) && !IsInfoSeparator(c)
  }

  /** `str.lstrip()`: drop leading whitespace. */
  function StripStart(s: string): (r: string)
    ensures |r| <= |s| && r == s[|s| - |r|..]
    ensures AllSpace(s[..|s| - |r|])
    ensures r == [] || !IsSpace(r[0])
  {
    if s != [] && IsSpace(s[0]) then StripStart(s[1..]) else s
  }

  /** `str.rstrip()`: drop trailing whitespace. */
  function StripEnd(s: string): (r: string)
    ensures |r| <= |s| && r == s[..|r|]
    ensures AllSpace(s[|r|..])
    ensures r == [] || !IsSpace(r[|r| - 1])
  {
    if s != [] && IsSpace(s[|s| - 1]) then StripEnd(s[..|s| - 1]) else s
  }

  /** `r` is `s` without the `k` whitespace characters before it and the
      whitespace characters after it. */
  predicate StrippedAt(s: string, r: string, k: nat) {
    k + |r| <= |s| && r == s[k..k + |r|] && AllSpace(s[..k]) && AllSpace(s[k + |r|..])
  }

  /** A prefix of spaces dropped, then a suffix of spaces dropped, leaves a
      stripped slice. */
  lemma {:induction false} TrimmedSlice(s: string, t: string, r: string)
    requires |t| <= |s| && t == s[|s| - |t|..] && AllSpace(s[..|s| - |t|])
    requires |r| <= |t| && r == t[..|r|] && AllSpace(t[|r|..])
    ensures StrippedAt(s, r, |s| - |t|)
  {
    var k := |s| - |t|;
    assert s[k..k + |r|] == t[..|r|];
    assert s[k + |r|..] == t[|r|..];
  }

  /** Stripping both ends keeps a slice of the text. */
  lemma StripBoth(s: string)
    ensures StrippedAt(s, StripEnd(StripStart(s)), |s| - |StripStart(s)|)
  {
    TrimmedSlice(s, StripStart(s), StripEnd(StripStart(s)));
  }

  /** A stripped slice is empty exactly when the text is all whitespace. */
  lemma {:induction false} StrippedBlank(s: string, r: string, k: nat)
    requires StrippedAt(s, r, k) && (r == [] || !IsSpace(r[0]))
    ensures r == [] <==> AllSpace(s)
  {
    if r == [] {
      forall i | 0 <= i < |s| ensures IsSpace(s[i]) {
        if i < k { assert s[..k][i] == s[i]; } else { assert s[k..][i - k] == s[i]; }
      }
    } else {
      assert s[k] == r[0];
    }
  }

  /** `str.strip()`: the text without its leading and trailing whitespace. */
  function Strip(s: string): (r: string)
    ensures exists k: nat :: StrippedAt(s, r, k)
    ensures r == [] <==> AllSpace(s)
    ensures r == [] || (!IsSpace(r[0]) && !IsSpace(r[|r| - 1]))
  {
    StripBoth(s);
    var r := StripEnd(StripStart(s));
    StrippedBlank(s, r, |s| - |StripStart(s)|);
    r
  }

  /** `sep.join(parts)`. */
  function Join(parts: seq<string>, sep: string): string {
    if |parts| == 0 then ""
    else if |parts| == 1 then parts[0]
    else parts[0] + sep + Join(parts[1..], sep)
  }
}
