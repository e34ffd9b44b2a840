/** `extract_data` (scrape_wisla.py, lines 17-62) with the browser replaced by
    a snapshot of what it would report: which cookie buttons respond to a
    click, the elements the sector locator finds, and the text of `<body>`.
    The methods follow the source's loops; each is proved equal to a function
    that states the same result declaratively, and the lemmas at the end state
    what that result promises. */
module Extraction {
  import opened Wrappers
  import opened Chars
  import opened Patterns
  import opened Numbers

  /** What the scraper reads from one located element (lines 36-43): the
      `aria-label` and `title` attributes, and the inner text, which is `None`
      when reading it raised (the source then keeps ""). */
  datatype Element = Element(ariaLabel: Option<string>, title: Option<string>, innerText: Option<string>)

  /** The page after load. `clickable` holds the cookie-button labels whose
      click succeeds within its timeout; `elements` is empty when locating
      them raised (lines 29-34). */
  datatype Page = Page(clickable: set<string>, elements: seq<Element>, bodyText: string)

  /** One `{"sector": ..., "available": ...}` entry. */
  datatype SectorReading = SectorReading(sector: string, available: nat)

  /** The triple `extract_data` returns. */
  datatype Outcome = Outcome(sectors: seq<SectorReading>, totalAvailable: Option<nat>, notes: string)

  /** The cookie-consent labels of line 20, in the order they are tried. */
  const CookieLabels: seq<string> := ["Tylko niezbędne dane", "Zgadzam się", "Akceptuj", "Accept"]

  const CookieNotePrefix := "Clicked cookie: "
  const FallbackNote := "Used global fallback"

  /** The index of the first element of `xs` that satisfies `p`. */
  function FirstWhere<T>(xs: seq<T>, p: T -> bool): (r: Option<nat>)
    ensures r.Some? ==> r.value < |xs| && p(xs[r.value]) && forall j | 0 <= j < r.value :: !p(xs[j])
    ensures r.None? <==> forall j | 0 <= j < |xs| :: !p(xs[j])
  {
    if xs == [] then None
    else if p(xs[0]) then Some(0)
    else
      match FirstWhere(xs[1..], p)
      case None => None
      case Some(k) => Some(k + 1)
  }

  /** Two indices that both satisfy "first one with `p`" are the same. */
  lemma FirstWhereUnique<T>(xs: seq<T>, p: T -> bool, i: nat)
    requires i < |xs| && p(xs[i]) && forall j | 0 <= j < i :: !p(xs[j])
    ensures FirstWhere(xs, p) == Some(i)
  {
  }

  /** Looking at one more element: the first match so far stays the first. */
  lemma FirstWhereStep<T>(xs: seq<T>, p: T -> bool, i: nat)
    requires i < |xs|
    ensures FirstWhere(xs[..i + 1], p) ==
      if FirstWhere(xs[..i], p).Some? then FirstWhere(xs[..i], p)
      else if p(xs[i]) then Some(i) else None
  {
    var a, b := xs[..i], xs[..i + 1];
    assert forall j | 0 <= j < i :: b[j] == a[j];
    assert b[i] == xs[i];
    match FirstWhere(a, p)
    case Some(k) =>
      FirstWhereUnique(b, p, k);
    case None =>
      if p(xs[i]) {
        FirstWhereUnique(b, p, i);
      }
  }

  /** A first match within a prefix is the first match of the whole sequence. */
  lemma PrefixFirst<T>(xs: seq<T>, p: T -> bool, n: nat, k: nat)
    requires n <= |xs| && FirstWhere(xs[..n], p) == Some(k)
    ensures FirstWhere(xs, p) == Some(k)
  {
    var a := xs[..n];
    assert a[k] == xs[k];
    assert forall j | 0 <= j < k :: a[j] == xs[j];
    FirstWhereUnique(xs, p, k);
  }

  // ---------------------------------------------------------------------
  // Cookie banner (lines 20-26)

  /** The label whose click the `for label` loop stops at. */
  function CookieClicked(clickable: set<string>): (l: Option<string>)
    ensures l.None? <==> forall j | 0 <= j < |CookieLabels| :: CookieLabels[j] !in clickable
    ensures l.Some? ==> exists i | 0 <= i < |CookieLabels| ::
      l.value == CookieLabels[i] && l.value in clickable && forall j | 0 <= j < i :: CookieLabels[j] !in clickable
  {
    match FirstWhere(CookieLabels, caption => caption in clickable)
    case None => None
    case Some(i) => Some(CookieLabels[i])
  }

  function CookieNotes(clickable: set<string>): seq<string> {
    match CookieClicked(clickable)
    case None => []
    case Some(l) => [CookieNotePrefix + l]
  }

  /** Try the labels in order; note and stop at the first click that succeeds. */
  method ClickCookieBanner(clickable: set<string>) returns (notes: seq<string>)
    ensures notes == CookieNotes(clickable)
  {
    notes := [];
    for i := 0 to |CookieLabels|
      invariant notes == []
      invariant forall j | 0 <= j < i :: CookieLabels[j] !in clickable
    {
      var caption := CookieLabels[i];
      if caption in clickable {
        notes := notes + [CookieNotePrefix + caption];
        FirstWhereUnique(CookieLabels, l => l in clickable, i);
        return;
      }
    }
  }

  // ---------------------------------------------------------------------
  // One element (lines 36-54)

  /** `txt` of lines 39-43. */
  function InnerText(e: Element): string {
    match e.innerText
    case None => ""
    case Some(t) => Strip(t)
  }

  /** Keeps a value that `filter(None, ...)` keeps: present and not empty. */
  function Present(o: Option<string>): (cs: seq<string>)
    ensures cs == [] <==> o.None? || o.value == ""
    ensures cs != [] ==> cs == [o.value]
    ensures forall c | c in cs :: o == Some(c)
  {
    if o.Some? && o.value != "" then [o.value] else []
  }

  /** `filter(None, [aria, title, txt])`, line 46. */
  function Candidates(e: Element): (cs: seq<string>)
    ensures |cs| <= 3
    ensures "" !in cs
    ensures forall c | c in cs :: Some(c) == e.ariaLabel || Some(c) == e.title || c == InnerText(e)
  {
    var txt := InnerText(e);
    var a, t, n := Present(e.ariaLabel), Present(e.title), Present(Some(txt));
    assert forall c | c in a + t + n :: c in a || c in t || c in n;
    a + t + n
  }

  predicate HasName(c: string) {
    SectorName(c).Some?
  }

  predicate HasCount(c: string) {
    AvailableRun(c).Some?
  }

  /** `parse_int` of a run captured by line 50 or 58. It is never `None`:
      the run starts with a digit. Only its `Err` remains to be handled. */
  function Count(run: string): (r: Result<nat, Error>)
    requires IsRun(run)
  {
    var parsed := ParseInt(Some(run));
    if parsed.Err? then Err(parsed.error)
    else
      assert !NoDigit(run) by {
        assert IsDigit(run[0]);
      }
      Ok(parsed.value.value)
  }

  /** What `parse_int` makes of a captured run: its digits, read in base 10,
      unless whitespace other than the deleted separators precedes a digit. */
  lemma CountOfRun(run: string)
    requires IsRun(run)
    ensures Count(run) ==
      if MisGrouped(run) then Err(InvalidLiteral(RemoveSeparators(run))) else Ok(DigitsValue(Digits(run)))
  {
    WholeRun(run);
    assert IsDigit(run[0]);
  }

  /** The reading the candidates of one element give: `Ok(Some(_))` when a
      name and a count were both found, `Ok(None)` when the element is skipped,
      `Err` when `parse_int` raised. The name comes from the first candidate
      that names a sector, the count from the first candidate that has the
      availability phrase. */
  function Reading(cs: seq<string>): Result<Option<SectorReading>, Error> {
    match FirstWhere(cs, HasCount)
    case None => Ok(None)
    case Some(k) =>
      match Count(AvailableRun(cs[k]).value)
      case Err(err) => Err(err)
      case Ok(n) =>
        match FirstWhere(cs, HasName)
        case None => Ok(None)
        case Some(j) => Ok(Some(SectorReading(SectorName(cs[j]).value, n)))
  }

  /** What one element contributes. */
  function ElementReading(e: Element): Result<Option<SectorReading>, Error> {
    Reading(Candidates(e))
  }

  /** The inner `for cand` loop: `name` and `avail` are each set by the first
      candidate that matches and never overwritten. */
  method ScanCandidates(cands: seq<string>) returns (r: Result<Option<SectorReading>, Error>)
    ensures r == Reading(cands)
  {
    var name: Option<string> := None;
    var avail: Option<nat> := None;
    ghost var nameAt: nat := 0;
    ghost var availAt: nat := 0;
    for i := 0 to |cands|
      invariant FirstWhere(cands[..i], HasName) == if name.Some? then Some(nameAt) else None
      invariant name.Some? ==> nameAt < |cands| && name == SectorName(cands[nameAt])
      invariant FirstWhere(cands[..i], HasCount) == if avail.Some? then Some(availAt) else None
      invariant avail.Some? ==> availAt < |cands| && HasCount(cands[availAt])
      invariant avail.Some? ==> Count(AvailableRun(cands[availAt]).value) == Ok(avail.value)
    {
      var cand := cands[i];
      FirstWhereStep(cands, HasName, i);
      FirstWhereStep(cands, HasCount, i);
      var mname := SectorName(cand);
      assert HasName(cands[i]) <==> mname.Some?;
      if mname.Some? && name.None? {
        name, nameAt := mname, i;
      }
      var mfree := AvailableRun(cand);
      assert HasCount(cands[i]) <==> mfree.Some?;
      if mfree.Some? && avail.None? {
        var parsed := Count(mfree.value);
        if parsed.Err? {
          PrefixFirst(cands, HasCount, i + 1, i);
          return Err(parsed.error);
        }
        avail, availAt := Some(parsed.value), i;
      }
    }
    assert cands[..|cands|] == cands;
    if name.Some? && avail.Some? {
      return Ok(Some(SectorReading(name.value, avail.value)));
    }
    return Ok(None);
  }

  /** Lines 36-54 for one element: read its texts, then scan them. */
  method ReadSector(e: Element) returns (r: Result<Option<SectorReading>, Error>)
    ensures r == ElementReading(e)
  {
    var txt := "";
    if e.innerText.Some? {
      txt := Strip(e.innerText.value);
    }
    var cands := Present(e.ariaLabel) + Present(e.title) + Present(Some(txt));
    assert cands == Candidates(e);
    r := ScanCandidates(cands);
  }

  // ---------------------------------------------------------------------
  // All elements, the total and the fallback (lines 28-62)

  /** What each element contributes, in the order of the locator. */
  function Readings(es: seq<Element>): (rs: seq<Result<Option<SectorReading>, Error>>)
    ensures |rs| == |es|
  {
    seq(|es|, i requires 0 <= i < |es| => ElementReading(es[i]))
  }

  /** The `sectors` list after the element loop over these contributions, or
      the exception that ended the loop. */
  function Collect(rs: seq<Result<Option<SectorReading>, Error>>): Result<seq<SectorReading>, Error>
    decreases |rs|
  {
    if rs == [] then Ok([])
    else
      match Collect(rs[..|rs| - 1])
      case Err(err) => Err(err)
      case Ok(ss) =>
        match rs[|rs| - 1]
        case Err(err) => Err(err)
        case Ok(None) => Ok(ss)
        case Ok(Some(x)) => Ok(ss + [x])
  }

  function SectorsOf(es: seq<Element>): Result<seq<SectorReading>, Error> {
    Collect(Readings(es))
  }

  /** `sum(s["available"] for s in sectors)`. */
  function Sum(ss: seq<SectorReading>): nat
    decreases |ss|
  {
    if ss == [] then 0 else Sum(ss[..|ss| - 1]) + ss[|ss| - 1].available
  }

  /** The result of `extract_data(page)`. The sector total takes precedence;
      the body text is scanned only when no element contributed. */
  function Extract(page: Page): Result<Outcome, Error> {
    var cookie := CookieNotes(page.clickable);
    match SectorsOf(page.elements)
    case Err(err) => Err(err)
    case Ok(sectors) =>
      if sectors != [] then Ok(Outcome(sectors, Some(Sum(sectors)), Join(cookie, "; ")))
      else
        match GlobalRun(page.bodyText)
        case None => Ok(Outcome([], None, Join(cookie, "; ")))
        case Some(run) =>
          match Count(run)
          case Err(err) => Err(err)
          case Ok(n) => Ok(Outcome([], Some(n), Join(cookie + [FallbackNote], "; ")))
  }

  /** One more element of the loop. */
  lemma SectorsOfStep(es: seq<Element>, i: nat)
    requires i < |es|
    ensures SectorsOf(es[..i + 1]) ==
      match SectorsOf(es[..i])
      case Err(err) => Err(err)
      case Ok(ss) =>
        match ElementReading(es[i])
        case Err(err) => Err(err)
        case Ok(None) => Ok(ss)
        case Ok(Some(x)) => Ok(ss + [x])
  {
    var rs := Readings(es[..i + 1]);
    assert rs[..i] == Readings(es[..i]);
    assert rs[i] == ElementReading(es[i]);
  }

  /** Once the loop has failed, the whole list fails with the same error. */
  lemma {:induction false} SectorsErrorPersists(es: seq<Element>, i: nat)
    requires i <= |es| && SectorsOf(es[..i]).Err?
    ensures SectorsOf(es) == SectorsOf(es[..i])
    decreases |es| - i
  {
    if i < |es| {
      SectorsOfStep(es, i);
      SectorsErrorPersists(es, i + 1);
    } else {
      assert es[..i] == es;
    }
  }

  /** The body of `extract_data`. */
  method ExtractData(page: Page) returns (r: Result<Outcome, Error>)
    ensures r == Extract(page)
  {
    var notes := ClickCookieBanner(page.clickable);
    var sectors: seq<SectorReading> := [];
    var es := page.elements;
    for i := 0 to |es|
      invariant SectorsOf(es[..i]) == Ok(sectors)
    {
      var reading := ReadSector(es[i]);
      SectorsOfStep(es, i);
      if reading.Err? {
        assert SectorsOf(es[..i + 1]) == Err(reading.error);
        SectorsErrorPersists(es, i + 1);
        return Err(reading.error);
      }
      if reading.value.Some? {
        sectors := sectors + [reading.value.value];
      }
    }
    assert es[..|es|] == es;
    var total: Option<nat> := if sectors != [] then Some(Sum(sectors)) else None;
    if total.None? {
      var m := GlobalRun(page.bodyText);
      if m.Some? {
        var parsed := Count(m.value);
        if parsed.Err? {
          return Err(parsed.error);
        }
        total := Some(parsed.value);
        notes := notes + [FallbackNote];
      }
    }
    return Ok(Outcome(sectors, total, Join(notes, "; ")));
  }
}
