/** What the result of `extract_data` promises, stated about the functions
    that the methods of `Extraction` are proved to compute. */
module ExtractionFacts {
  import opened Wrappers
  import opened Chars
  import opened Patterns
  import opened Numbers
  import opened Extraction

  // ---------------------------------------------------------------------
  // The cookie banner

  /** At most one note, and it names the first label of line 20 whose click
      succeeds; no note when none does. */
  lemma CookieNoteFacts(clickable: set<string>)
    ensures |CookieNotes(clickable)| <= 1
    ensures CookieNotes(clickable) == [] <==> forall j | 0 <= j < |CookieLabels| :: CookieLabels[j] !in clickable
    ensures CookieNotes(clickable) != [] ==> exists i | 0 <= i < |CookieLabels| ::
      CookieNotes(clickable) == [CookieNotePrefix + CookieLabels[i]] && CookieLabels[i] in clickable &&
      forall j | 0 <= j < i :: CookieLabels[j] !in clickable
  {
  }

  // ---------------------------------------------------------------------
  // One element

  /** An element raises exactly when the first candidate with the
      availability phrase has a run that `int()` refuses, whether or not any
      candidate names a sector: `parse_int` runs before the name is checked. */
  lemma ReadingFails(cs: seq<string>)
    ensures Reading(cs).Err? <==>
      exists k | 0 <= k < |cs| ::
        HasCount(cs[k]) && (forall j | 0 <= j < k :: !HasCount(cs[j])) && MisGrouped(AvailableRun(cs[k]).value)
  {
    if k :| 0 <= k < |cs| && HasCount(cs[k]) && (forall j | 0 <= j < k :: !HasCount(cs[j])) && MisGrouped(AvailableRun(cs[k]).value) {
      FirstWhereUnique(cs, HasCount, k);
      CountOfRun(AvailableRun(cs[k]).value);
    }
    if Reading(cs).Err? {
      var k := FirstWhere(cs, HasCount).value;
      CountOfRun(AvailableRun(cs[k]).value);
      assert HasCount(cs[k]) && (forall j | 0 <= j < k :: !HasCount(cs[j])) && MisGrouped(AvailableRun(cs[k]).value);
    }
  }

  /** A reading holds a well-formed sector code taken from the first
      candidate that names a sector, and the number read from the first
      candidate that has the availability phrase. */
  lemma ReadingFound(cs: seq<string>, x: SectorReading)
    requires Reading(cs) == Ok(Some(x))
    ensures IsSectorCode(x.sector)
    ensures exists j | 0 <= j < |cs| ::
      SectorName(cs[j]) == Some(x.sector) && forall i | 0 <= i < j :: !HasName(cs[i])
    ensures exists k | 0 <= k < |cs| ::
      AvailableRun(cs[k]).Some? && (forall i | 0 <= i < k :: !HasCount(cs[i])) &&
      !MisGrouped(AvailableRun(cs[k]).value) && x.available == DigitsValue(Digits(AvailableRun(cs[k]).value))
  {
    var k := FirstWhere(cs, HasCount).value;
    var j := FirstWhere(cs, HasName).value;
    CountOfRun(AvailableRun(cs[k]).value);
    assert SectorName(cs[j]) == Some(x.sector);
  }

  /** An element that does not raise gives a reading exactly when some
      candidate names a sector and some candidate has the availability
      phrase; they need not be the same candidate. */
  lemma ReadingPresent(cs: seq<string>)
    requires Reading(cs).Ok?
    ensures Reading(cs).value.Some? <==>
      (exists j | 0 <= j < |cs| :: HasName(cs[j])) && (exists k | 0 <= k < |cs| :: HasCount(cs[k]))
  {
    if (exists j | 0 <= j < |cs| :: HasName(cs[j])) && (exists k | 0 <= k < |cs| :: HasCount(cs[k])) {
      assert FirstWhere(cs, HasName).Some? && FirstWhere(cs, HasCount).Some?;
    }
  }

  /** The first of an element's aria-label, title and stripped inner text,
      in that order, that satisfies `p`, without the filtering of line 46. */
  function FirstText(e: Element, p: string -> bool): (t: Option<string>)
    ensures t.Some? ==> p(t.value) && (t == e.ariaLabel || t == e.title || t.value == InnerText(e))
    ensures t.None? ==> (e.ariaLabel.None? || !p(e.ariaLabel.value)) && (e.title.None? || !p(e.title.value)) && !p(InnerText(e))
  {
    if e.ariaLabel.Some? && p(e.ariaLabel.value) then e.ariaLabel
    else if e.title.Some? && p(e.title.value) then e.title
    else if p(InnerText(e)) then Some(InnerText(e))
    else None
  }

  /** The empty text neither names a sector nor has the availability phrase. */
  lemma EmptyText()
    ensures !HasName("") && !HasCount("")
  {
    assert !SectorNameAt("", 0);
    assert !AvailableAt("", 0);
  }

  /** The first match after a part of at most one element. */
  lemma FirstWhereCons(x: seq<string>, rest: seq<string>, p: string -> bool)
    requires |x| <= 1
    ensures FirstWhere(x + rest, p) ==
      if x != [] && p(x[0]) then Some(0)
      else match FirstWhere(rest, p)
        case None => None
        case Some(k) => Some(k + |x|)
  {
    if x == [] {
      assert x + rest == rest;
    } else {
      assert (x + rest)[0] == x[0] && (x + rest)[1..] == rest;
    }
  }

  /** The first match in three parts of at most one element each. */
  lemma FirstOfThree(a: seq<string>, t: seq<string>, n: seq<string>, p: string -> bool)
    requires |a| <= 1 && |t| <= 1 && |n| <= 1
    ensures FirstWhere(a + t + n, p) ==
      if a != [] && p(a[0]) then Some(0)
      else if t != [] && p(t[0]) then Some(|a|)
      else if n != [] && p(n[0]) then Some(|a| + |t|)
      else None
  {
    assert a + t + n == a + (t + n);
    assert n + [] == n;
    FirstWhereCons(n, [], p);
    FirstWhereCons(t, n, p);
    FirstWhereCons(a, t + n, p);
  }

  /** Which of three optional texts the filtered sequence finds first. */
  lemma PresentFirst(x: Option<string>, y: Option<string>, z: Option<string>, p: string -> bool)
    requires !p("")
    ensures var cs := Present(x) + Present(y) + Present(z);
      && (FirstWhere(cs, p).None? <==> !(x.Some? && p(x.value)) && !(y.Some? && p(y.value)) && !(z.Some? && p(z.value)))
      && (FirstWhere(cs, p).Some? ==>
            cs[FirstWhere(cs, p).value] ==
            (if x.Some? && p(x.value) then x.value else if y.Some? && p(y.value) then y.value else z.value))
  {
    var a, t, n := Present(x), Present(y), Present(z);
    var cs := a + t + n;
    FirstOfThree(a, t, n, p);
    if a != [] {
      assert cs[0] == a[0];
    }
    if t != [] {
      assert cs[|a|] == t[0];
    }
    if n != [] {
      assert cs[|a| + |t|] == n[0];
    }
  }

  /** Dropping missing and empty values (line 46) does not change which text
      is the first to satisfy a property the empty text lacks. */
  lemma CandidatesFirst(e: Element, p: string -> bool)
    requires !p("")
    ensures FirstWhere(Candidates(e), p).None? <==> FirstText(e, p).None?
    ensures FirstWhere(Candidates(e), p).Some? ==> FirstText(e, p) == Some(Candidates(e)[FirstWhere(Candidates(e), p).value])
  {
    var txt := InnerText(e);
    assert Candidates(e) == Present(e.ariaLabel) + Present(e.title) + Present(Some(txt));
    PresentFirst(e.ariaLabel, e.title, Some(txt), p);
  }

  /** One element's reading, stated on its three texts directly: the count
      from the first of aria-label, title and inner text that has the
      availability phrase, the name from the first of them that names a
      sector. */
  lemma ElementReadingSources(e: Element)
    ensures ElementReading(e) ==
      match FirstText(e, HasCount)
      case None => Ok(None)
      case Some(c) =>
        match Count(AvailableRun(c).value)
        case Err(err) => Err(err)
        case Ok(n) =>
          match FirstText(e, HasName)
          case None => Ok(None)
          case Some(m) => Ok(Some(SectorReading(SectorName(m).value, n)))
  {
    EmptyText();
    CandidatesFirst(e, HasCount);
    CandidatesFirst(e, HasName);
  }

  // ---------------------------------------------------------------------
  // The element loop

  /** The loop over two runs of contributions is the loop over the first
      followed by the loop over the second. */
  lemma {:induction false} CollectAppend(a: seq<Result<Option<SectorReading>, Error>>, b: seq<Result<Option<SectorReading>, Error>>)
    ensures Collect(a + b) ==
      match Collect(a)
      case Err(err) => Err(err)
      case Ok(x) =>
        match Collect(b)
        case Err(err) => Err(err)
        case Ok(y) => Ok(x + y)
    decreases |b|
  {
    if b == [] {
      assert a + b == a;
      match Collect(a)
      case Err(_) =>
      case Ok(x) => assert x + [] == x;
    } else {
      var b', r := b[..|b| - 1], b[|b| - 1];
      assert (a + b)[..|a + b| - 1] == a + b';
      assert (a + b)[|a + b| - 1] == r;
      CollectAppend(a, b');
      match Collect(a)
      case Err(_) =>
      case Ok(x) =>
        match Collect(b')
        case Err(_) =>
        case Ok(y) =>
          match r
          case Err(_) =>
          case Ok(None) =>
          case Ok(Some(z)) => assert x + (y + [z]) == (x + y) + [z];
    }
  }

  /** The loop fails exactly when some contribution is an exception, and then
      with the first one. */
  lemma {:induction false} CollectFails(rs: seq<Result<Option<SectorReading>, Error>>)
    ensures Collect(rs).Err? <==> exists i | 0 <= i < |rs| :: rs[i].Err?
    ensures Collect(rs).Err? ==> exists i | 0 <= i < |rs| ::
      rs[i] == Err(Collect(rs).error) && forall j | 0 <= j < i :: rs[j].Ok?
    decreases |rs|
  {
    if rs != [] {
      var u := rs[..|rs| - 1];
      CollectFails(u);
      assert forall i | 0 <= i < |u| :: rs[i] == u[i];
      if Collect(u).Err? {
        var i :| 0 <= i < |u| && u[i] == Err(Collect(u).error) && forall j | 0 <= j < i :: u[j].Ok?;
        assert rs[i] == Err(Collect(rs).error);
      } else if rs[|u|].Err? {
        assert forall j | 0 <= j < |u| :: rs[j].Ok?;
      }
    }
  }

  /** Every sector in the list is the contribution of some element, in at
      most one entry per element. */
  lemma {:induction false} CollectFrom(rs: seq<Result<Option<SectorReading>, Error>>, ss: seq<SectorReading>)
    requires Collect(rs) == Ok(ss)
    ensures |ss| <= |rs|
    ensures forall i | 0 <= i < |ss| :: exists j | 0 <= j < |rs| :: rs[j] == Ok(Some(ss[i]))
    decreases |rs|
  {
    if rs != [] {
      var u := rs[..|rs| - 1];
      var su := Collect(u).value;
      CollectFrom(u, su);
      assert forall j | 0 <= j < |u| :: rs[j] == u[j];
      match rs[|u|]
      case Ok(None) =>
      case Ok(Some(x)) =>
        assert ss == su + [x];
        assert forall i | 0 <= i < |su| :: ss[i] == su[i];
    }
  }

  lemma ReadingsAppend(a: seq<Element>, b: seq<Element>)
    ensures Readings(a + b) == Readings(a) + Readings(b)
  {
    var r, ra, rb := Readings(a + b), Readings(a), Readings(b);
    forall i | 0 <= i < |r| ensures r[i] == (ra + rb)[i] {
      if i < |a| {
        assert (a + b)[i] == a[i];
      } else {
        assert (a + b)[i] == b[i - |a|];
      }
    }
  }

  /** The element loop over two runs of elements is the loop over the first
      followed by the loop over the second. */
  lemma SectorsOfAppend(a: seq<Element>, b: seq<Element>)
    ensures SectorsOf(a + b) ==
      match SectorsOf(a)
      case Err(err) => Err(err)
      case Ok(x) =>
        match SectorsOf(b)
        case Err(err) => Err(err)
        case Ok(y) => Ok(x + y)
  {
    ReadingsAppend(a, b);
    CollectAppend(Readings(a), Readings(b));
  }

  /** The element loop raises exactly when some element raises, and then
      with the error of the first one that does. */
  lemma SectorsFail(es: seq<Element>)
    ensures SectorsOf(es).Err? <==> exists i | 0 <= i < |es| :: ElementReading(es[i]).Err?
    ensures SectorsOf(es).Err? ==> exists i | 0 <= i < |es| ::
      ElementReading(es[i]) == Err(SectorsOf(es).error) && forall j | 0 <= j < i :: ElementReading(es[j]).Ok?
  {
    var rs := Readings(es);
    CollectFails(rs);
    assert forall i | 0 <= i < |es| :: rs[i] == ElementReading(es[i]);
  }

  /** Each element contributes at most one reading, and every sector name is
      a well-formed code: one letter and at most two digits. */
  lemma SectorsWellFormed(es: seq<Element>, ss: seq<SectorReading>)
    requires SectorsOf(es) == Ok(ss)
    ensures |ss| <= |es|
    ensures forall i | 0 <= i < |ss| :: IsSectorCode(ss[i].sector)
  {
    var rs := Readings(es);
    CollectFrom(rs, ss);
    forall i | 0 <= i < |ss| ensures IsSectorCode(ss[i].sector) {
      var j :| 0 <= j < |rs| && rs[j] == Ok(Some(ss[i]));
      assert rs[j] == ElementReading(es[j]);
      ReadingFound(Candidates(es[j]), ss[i]);
    }
  }

  // ---------------------------------------------------------------------
  // The total

  lemma {:induction false} SumAppend(a: seq<SectorReading>, b: seq<SectorReading>)
    ensures Sum(a + b) == Sum(a) + Sum(b)
    decreases |b|
  {
    if b == [] {
      assert a + b == a;
    } else {
      var b' := b[..|b| - 1];
      assert (a + b)[..|a + b| - 1] == a + b';
      SumAppend(a, b');
    }
  }

  /** Each sector's count is at most the total, and the total is zero exactly
      when every sector reports zero. */
  lemma {:induction false} SumBounds(ss: seq<SectorReading>)
    ensures forall i | 0 <= i < |ss| :: ss[i].available <= Sum(ss)
    ensures Sum(ss) == 0 <==> forall i | 0 <= i < |ss| :: ss[i].available == 0
    decreases |ss|
  {
    if ss != [] {
      var u := ss[..|ss| - 1];
      SumBounds(u);
      assert forall i | 0 <= i < |u| :: ss[i] == u[i];
    }
  }

  // ---------------------------------------------------------------------
  // The triple returned by `extract_data`

  /** The total comes from the sectors when there are any, and otherwise
      from the body text's "Dostępne: N" phrase; it is `None` only when both
      are missing. The notes are the cookie note, then the fallback note
      exactly when the fallback supplied the total. */
  lemma ExtractResult(page: Page, x: Outcome)
    requires Extract(page) == Ok(x)
    ensures SectorsOf(page.elements) == Ok(x.sectors)
    ensures x.sectors != [] ==> x.totalAvailable == Some(Sum(x.sectors))
    ensures x.totalAvailable.None? <==> x.sectors == [] && GlobalRun(page.bodyText).None?
    ensures x.sectors == [] && x.totalAvailable.Some? ==>
      GlobalRun(page.bodyText).Some? && !MisGrouped(GlobalRun(page.bodyText).value) &&
      x.totalAvailable == Some(DigitsValue(Digits(GlobalRun(page.bodyText).value)))
    ensures x.notes ==
      Join(CookieNotes(page.clickable) + (if x.sectors == [] && x.totalAvailable.Some? then [FallbackNote] else []), "; ")
  {
    if SectorsOf(page.elements) == Ok([]) && GlobalRun(page.bodyText).Some? {
      CountOfRun(GlobalRun(page.bodyText).value);
    }
    var cookie := CookieNotes(page.clickable);
    assert cookie + [] == cookie;
  }

  /** `extract_data` raises exactly when an element's count raises, or when
      no element contributed and the fallback's count raises. */
  lemma ExtractFails(page: Page)
    ensures Extract(page).Err? <==>
      (exists i | 0 <= i < |page.elements| :: ElementReading(page.elements[i]).Err?) ||
      (SectorsOf(page.elements) == Ok([]) && GlobalRun(page.bodyText).Some? && MisGrouped(GlobalRun(page.bodyText).value))
  {
    SectorsFail(page.elements);
    if SectorsOf(page.elements) == Ok([]) && GlobalRun(page.bodyText).Some? {
      CountOfRun(GlobalRun(page.bodyText).value);
    }
  }

  /** Once an element has contributed, the body text is never read. */
  lemma BodyTextIgnored(page: Page, body: string)
    requires SectorsOf(page.elements).Ok? && SectorsOf(page.elements).value != []
    ensures Extract(page.(bodyText := body)) == Extract(page)
  {
  }
}
