/** The four regular expressions of scrape_wisla.py, each written out as a
    matcher over `seq<char>`, and `re.search`, which tries a pattern at every
    start position from the left and reports the first that matches. All
    patterns are used with `re.I`; in the patterns of lines 47-58 the greedy
    `\s*` and `[^\d]*` never need to give characters back, so each matcher
    below is deterministic. A keyword alternation is matched by trying its
    keywords in order and taking the first that fits; this agrees with the
    regex alternation because no two keywords of one list can match at the
    same position. */
module Patterns {
  import opened Wrappers
  import opened Chars

  /** `re.search`: the leftmost start position in `from..|s|` at which the
      pattern matches. */
  function Search(matchesAt: (string, nat) -> bool, s: string, from: nat): (r: Option<nat>)
    decreases |s| + 1 - from
    ensures r.Some? ==> from <= r.value <= |s| && matchesAt(s, r.value)
    ensures r.Some? ==> forall q | from <= q < r.value :: !matchesAt(s, q)
    ensures r.None? ==> forall q | from <= q <= |s| :: !matchesAt(s, q)
  {
    if from > |s| then None
    else if matchesAt(s, from) then Some(from)
    else Search(matchesAt, s, from + 1)
  }

  /** A search that reaches `q` and matches there finds `q`. */
  lemma {:induction false} SearchAt(m: (string, nat) -> bool, s: string, from: nat, q: nat)
    requires from <= q <= |s| && m(s, q) && forall j | from <= j < q :: !m(s, j)
    ensures Search(m, s, from) == Some(q)
    decreases q - from
  {
    if from < q {
      SearchAt(m, s, from + 1, q);
    }
  }

  /** `\d` at position `p`. */
  predicate DigitAt(s: string, p: nat) {
    p < |s| && IsDigit(s[p])
  }

  /** The class `[\d\s ]`; NO-BREAK SPACE is already whitespace. */
  predicate IsRunChar(c: char) {
    IsDigit(c) || IsSpace(c)
  }

  /** What `\d[\d\s ]*` can match: a digit, then digits and whitespace. */
  predicate IsRun(s: string) {
    s != [] && IsDigit(s[0]) && forall i | 0 <= i < |s| :: IsRunChar(s[i])
  }

  predicate NoDigit(s: string) {
    forall i | 0 <= i < |s| :: !IsDigit(s[i])
  }

  /** End of the greedy `[\d\s ]*` that starts at `i`. */
  function RunEnd(s: string, i: nat): (e: nat)
    requires i <= |s|
    decreases |s| - i
    ensures i <= e <= |s|
    ensures forall j | i <= j < e :: IsRunChar(s[j])
    ensures e == |s| || !IsRunChar(s[e])
  {
    if i < |s| && IsRunChar(s[i]) then RunEnd(s, i + 1) else i
  }

  /** End of the greedy `\s*` that starts at `i`. */
  function SpaceEnd(s: string, i: nat): (e: nat)
    requires i <= |s|
    decreases |s| - i
    ensures i <= e <= |s|
    ensures forall j | i <= j < e :: IsSpace(s[j])
    ensures e == |s| || !IsSpace(s[e])
  {
    if i < |s| && IsSpace(s[i]) then SpaceEnd(s, i + 1) else i
  }

  /** The group `(\d[\d\s ]*)` when its first digit is at `q`. */
  function RunAt(s: string, q: nat): (run: string)
    requires DigitAt(s, q)
    ensures IsRun(run)
  {
    s[q..RunEnd(s, q)]
  }

  /** The leftmost match of `\d[\d\s ]*` (the search of `parse_int`):
      the text splits into a digit-free prefix, the run, and a rest that does
      not continue the run. */
  function DigitRun(s: string): (m: Option<string>)
    ensures m.None? <==> NoDigit(s)
    ensures m.Some? ==> IsRun(m.value)
    ensures m.Some? ==> exists pre, post :: s == pre + m.value + post && NoDigit(pre) && (post == [] || !IsRunChar(post[0]))
  {
    match Search(DigitAt, s, 0)
    case None =>
      forall i | 0 <= i < |s| ensures !IsDigit(s[i]) {
        assert !DigitAt(s, i);
      }
      None
    case Some(q) =>
      var run, pre, post := RunAt(s, q), s[..q], s[RunEnd(s, q)..];
      assert s == pre + run + post;
      forall i | 0 <= i < |pre| ensures !IsDigit(pre[i]) {
        assert !DigitAt(s, i);
      }
      assert post != [] ==> post[0] == s[RunEnd(s, q)];
      Some(run)
  }

  /** A group of alternative keywords at `p`, tried in order: where the first
      one that matches (ignoring case) ends. */
  function KeywordEnd(s: string, p: nat, kws: seq<string>): (e: Option<nat>)
    ensures e.Some? ==> p <= e.value <= |s|
    ensures e.Some? ==> exists k | 0 <= k < |kws| :: KeywordAt(s, p, kws[k]) && e.value == p + |kws[k]|
    ensures e.None? <==> forall k | 0 <= k < |kws| :: !KeywordAt(s, p, kws[k])
  {
    if kws == [] then None
    else if KeywordAt(s, p, kws[0]) then Some(p + |kws[0]|)
    else
      var e := KeywordEnd(s, p, kws[1..]);
      assert forall k | 1 <= k < |kws| :: kws[k] == kws[1..][k - 1];
      e
  }

  // ---------------------------------------------------------------------
  // Line 47: (Sektor|Sector)\s*([A-Z]\d{0,2}|[A-Z]+)

  const SectorKeywords: seq<string> := ["sektor", "sector"]

  /** What group 2 of line 47 can capture under its first alternative. */
  predicate IsSectorCode(n: string) {
    1 <= |n| <= 3 && IsLetter(n[0]) && forall k | 1 <= k < |n| :: IsDigit(n[k])
  }

  /** `[A-Z]\d{0,2}` at `q`: a letter, then up to two digits, greedily. */
  function ShortCodeEnd(s: string, q: nat): (e: Option<nat>)
    ensures e.Some? <==> q < |s| && IsLetter(s[q])
    ensures e.Some? ==> q < e.value <= |s| && IsSectorCode(s[q..e.value])
    ensures e.Some? && e.value < q + 3 ==> !DigitAt(s, e.value)
  {
    if q < |s| && IsLetter(s[q]) then
      Some(if DigitAt(s, q + 1) then (if DigitAt(s, q + 2) then q + 3 else q + 2) else q + 1)
    else None
  }

  /** End of the greedy `[A-Z]*` that starts at `i`. */
  function LettersEnd(s: string, i: nat): (e: nat)
    requires i <= |s|
    decreases |s| - i
    ensures i <= e <= |s|
    ensures forall j | i <= j < e :: IsLetter(s[j])
  {
    if i < |s| && IsLetter(s[i]) then LettersEnd(s, i + 1) else i
  }

  /** `[A-Z]+` at `q`. */
  function LetterRunEnd(s: string, q: nat): (e: Option<nat>)
    ensures e.Some? <==> q < |s| && IsLetter(s[q])
  {
    if q < |s| && IsLetter(s[q]) then Some(LettersEnd(s, q + 1)) else None
  }

  /** `([A-Z]\d{0,2}|[A-Z]+)` at `q`: the first alternative that matches.
      Nothing follows the group in the pattern, so the first alternative is
      never abandoned once it matches. */
  function CodeEnd(s: string, q: nat): (e: Option<nat>)
    ensures e == ShortCodeEnd(s, q)
  {
    if ShortCodeEnd(s, q).Some? then ShortCodeEnd(s, q) else LetterRunEnd(s, q)
  }

  /** Where `(Sektor|Sector)\s*` ends when it matches at `p`. */
  function CodeStart(s: string, p: nat): Option<nat> {
    match KeywordEnd(s, p, SectorKeywords)
    case None => None
    case Some(k) => Some(SpaceEnd(s, k))
  }

  /** The whole pattern of line 47 matches at `p`. */
  predicate SectorNameAt(s: string, p: nat) {
    match CodeStart(s, p)
    case None => false
    case Some(q) => CodeEnd(s, q).Some?
  }

  /** Group 2 of the leftmost match of line 47, or `None` when it does not match. */
  function SectorName(s: string): (name: Option<string>)
    ensures name.Some? ==> IsSectorCode(name.value)
  {
    match Search(SectorNameAt, s, 0)
    case None => None
    case Some(p) =>
      var q := CodeStart(s, p).value;
      Some(s[q..CodeEnd(s, q).value])
  }

  // ---------------------------------------------------------------------
  // Line 50: (dostępnych|available|wolnych)[^\d]*(\d[\d\s ]*)

  const AvailableKeywords: seq<string> := ["dostępnych", "available", "wolnych"]

  /** When the keyword group matches at `p`: the first digit after it, which
      is where `[^\d]*` hands over to the second group. */
  function AvailableDigit(s: string, p: nat): (q: Option<nat>)
    ensures q.Some? ==> DigitAt(s, q.value)
  {
    match KeywordEnd(s, p, AvailableKeywords)
    case None => None
    case Some(k) => Search(DigitAt, s, k)
  }

  predicate AvailableAt(s: string, p: nat) {
    AvailableDigit(s, p).Some?
  }

  /** Group 2 of the leftmost match of line 50. */
  function AvailableRun(s: string): (m: Option<string>)
    ensures m.Some? ==> IsRun(m.value)
  {
    match Search(AvailableAt, s, 0)
    case None => None
    case Some(p) => Some(RunAt(s, AvailableDigit(s, p).value))
  }

  // ---------------------------------------------------------------------
  // Line 58: (Dostępne|Available)\s*:\s*(\d[\d\s ]*)

  const GlobalKeywords: seq<string> := ["dostępne", "available"]

  /** When the pattern of line 58 matches at `p`: where its second group starts. */
  function GlobalDigit(s: string, p: nat): (q: Option<nat>)
    ensures q.Some? ==> DigitAt(s, q.value)
  {
    match KeywordEnd(s, p, GlobalKeywords)
    case None => None
    case Some(k) =>
      var colon := SpaceEnd(s, k);
      if colon < |s| && s[colon] == ':' then
        var q := SpaceEnd(s, colon + 1);
        if DigitAt(s, q) then Some(q) else None
      else None
  }

  predicate GlobalAt(s: string, p: nat) {
    GlobalDigit(s, p).Some?
  }

  /** Group 2 of the leftmost match of line 58. */
  function GlobalRun(s: string): (m: Option<string>)
    ensures m.Some? ==> IsRun(m.value)
  {
    match Search(GlobalAt, s, 0)
    case None => None
    case Some(p) => Some(RunAt(s, GlobalDigit(s, p).value))
  }

  // ---------------------------------------------------------------------
  // Each search fails exactly when its pattern matches nowhere.

  lemma SectorNameAbsent(s: string)
    ensures SectorName(s).None? <==> forall p | 0 <= p <= |s| :: !SectorNameAt(s, p)
  {
  }

  lemma AvailableRunAbsent(s: string)
    ensures AvailableRun(s).None? <==> forall p | 0 <= p <= |s| :: !AvailableAt(s, p)
  {
  }

  lemma GlobalRunAbsent(s: string)
    ensures GlobalRun(s).None? <==> forall p | 0 <= p <= |s| :: !GlobalAt(s, p)
  {
  }

  // ---------------------------------------------------------------------
  // What a successful search captured, and where.

  /** One of the keywords `kws` at `p`, and then only whitespace up to `q`,
      where the whitespace ends. */
  predicate KeywordThenSpaces(s: string, p: nat, q: nat, kws: seq<string>) {
    exists k | 0 <= k < |kws| ::
      KeywordAt(s, p, kws[k]) && p + |kws[k]| <= q <= |s| && AllSpace(s[p + |kws[k]|..q]) && (q == |s| || !IsSpace(s[q]))
  }

  /** One of the keywords `kws` at `p`, and then no digit before `q`. */
  predicate KeywordThenNonDigits(s: string, p: nat, q: nat, kws: seq<string>) {
    exists k | 0 <= k < |kws| ::
      KeywordAt(s, p, kws[k]) && p + |kws[k]| <= q <= |s| && NoDigit(s[p + |kws[k]|..q])
  }

  lemma SpaceEndShape(s: string, k: nat)
    requires k <= |s|
    ensures AllSpace(s[k..SpaceEnd(s, k)])
  {
    var e := SpaceEnd(s, k);
    assert forall j | 0 <= j < e - k :: s[k..e][j] == s[k + j];
  }

  /** A keyword and the whitespace after it. */
  lemma KeywordSpaces(s: string, p: nat, kws: seq<string>)
    requires KeywordEnd(s, p, kws).Some?
    ensures KeywordThenSpaces(s, p, SpaceEnd(s, KeywordEnd(s, p, kws).value), kws)
  {
    var k := KeywordEnd(s, p, kws).value;
    SpaceEndShape(s, k);
    var w :| 0 <= w < |kws| && KeywordAt(s, p, kws[w]) && k == p + |kws[w]|;
  }

  /** A keyword and the non-digits up to the first digit after it. */
  lemma KeywordNonDigits(s: string, p: nat, kws: seq<string>)
    requires KeywordEnd(s, p, kws).Some? && Search(DigitAt, s, KeywordEnd(s, p, kws).value).Some?
    ensures KeywordThenNonDigits(s, p, Search(DigitAt, s, KeywordEnd(s, p, kws).value).value, kws)
  {
    var k := KeywordEnd(s, p, kws).value;
    var q := Search(DigitAt, s, k).value;
    var w :| 0 <= w < |kws| && KeywordAt(s, p, kws[w]) && k == p + |kws[w]|;
    forall j | k <= j < q ensures !IsDigit(s[j]) {
      assert !DigitAt(s, j);
    }
    SliceNoDigit(s, k, q);
  }

  lemma SliceNoDigit(s: string, k: nat, q: nat)
    requires k <= q <= |s| && forall j | k <= j < q :: !IsDigit(s[j])
    ensures NoDigit(s[k..q])
  {
    assert forall j | 0 <= j < q - k :: s[k..q][j] == s[k + j];
  }

  /** The name of line 47 is the code right after `Sektor` or `Sector` (any
      case) and the whitespace after it, at the leftmost place where a
      keyword is followed by a letter; it takes up to two digits, as many as
      follow the letter. */
  lemma SectorNameShape(s: string)
    requires SectorName(s).Some?
    ensures var n := SectorName(s).value;
      exists p, q | 0 <= p <= q && q + |n| <= |s| ::
        && KeywordThenSpaces(s, p, q, SectorKeywords) && s[q..q + |n|] == n
        && (|n| == 3 || q + |n| == |s| || !IsDigit(s[q + |n|]))
        && forall p' | 0 <= p' < p :: !SectorNameAt(s, p')
  {
    var n := SectorName(s).value;
    var p := Search(SectorNameAt, s, 0).value;
    var k := KeywordEnd(s, p, SectorKeywords).value;
    var q := SpaceEnd(s, k);
    SpaceEndShape(s, k);
    assert KeywordThenSpaces(s, p, q, SectorKeywords);
    assert s[q..q + |n|] == n;
  }

  /** Where line 50 matches first, and where its second group starts. */
  function AvailableMatch(s: string): (pq: (nat, nat))
    requires AvailableRun(s).Some?
    ensures pq.0 <= pq.1 < |s| && IsDigit(s[pq.1])
    ensures AvailableRun(s).value == s[pq.1..RunEnd(s, pq.1)]
    ensures forall p' | 0 <= p' < pq.0 :: !AvailableAt(s, p')
  {
    var p := Search(AvailableAt, s, 0).value;
    var q := AvailableDigit(s, p).value;
    (p, q)
  }

  lemma AvailableMatchKeyword(s: string)
    requires AvailableRun(s).Some?
    ensures KeywordThenNonDigits(s, AvailableMatch(s).0, AvailableMatch(s).1, AvailableKeywords)
  {
    var p := Search(AvailableAt, s, 0).value;
    KeywordNonDigits(s, p, AvailableKeywords);
  }

  /** The run of line 50 starts at the first digit after `dostępnych`,
      `available` or `wolnych` (any case), at the leftmost keyword that has
      a digit somewhere after it. */
  lemma AvailableRunShape(s: string)
    requires AvailableRun(s).Some?
    ensures exists p, q | 0 <= p <= q < |s| ::
      KeywordThenNonDigits(s, p, q, AvailableKeywords) && IsDigit(s[q]) &&
      AvailableRun(s).value == s[q..RunEnd(s, q)] && forall p' | 0 <= p' < p :: !AvailableAt(s, p')
  {
    var (p, q) := AvailableMatch(s);
    AvailableMatchKeyword(s);
  }

  /** Where line 58 matches first, where its colon is, and where its second
      group starts: whitespace only between the colon and the run, which is
      what follows. */
  function GlobalMatch(s: string): (pcq: (nat, nat, nat))
    requires GlobalRun(s).Some?
    ensures pcq.0 <= pcq.1 < pcq.2 < |s| && s[pcq.1] == ':' && IsDigit(s[pcq.2])
    ensures AllSpace(s[pcq.1 + 1..pcq.2])
    ensures GlobalRun(s).value == s[pcq.2..RunEnd(s, pcq.2)]
    ensures forall p' | 0 <= p' < pcq.0 :: !GlobalAt(s, p')
  {
    var p := Search(GlobalAt, s, 0).value;
    var k := KeywordEnd(s, p, GlobalKeywords).value;
    var c := SpaceEnd(s, k);
    var q := GlobalDigit(s, p).value;
    SpaceEndShape(s, c + 1);
    (p, c, q)
  }

  /** Before the colon of that match: `Dostępne` or `Available` (any case),
      then whitespace only. */
  lemma GlobalMatchKeyword(s: string)
    requires GlobalRun(s).Some?
    ensures KeywordThenSpaces(s, GlobalMatch(s).0, GlobalMatch(s).1, GlobalKeywords)
  {
    var p := Search(GlobalAt, s, 0).value;
    KeywordSpaces(s, p, GlobalKeywords);
  }
}
