/** Concrete snapshots and what the model reads from them. */
module Scenarios {
  import opened Wrappers
  import opened Chars
  import opened Patterns
  import opened Numbers
  import opened Extraction

  lemma SectorNameExample()
    ensures SectorName("Sektor B3") == Some("B3")
  {
    var s := "Sektor B3";
    assert KeywordAt(s, 0, SectorKeywords[0]);
    assert KeywordEnd(s, 0, SectorKeywords) == Some(6);
    assert SpaceEnd(s, 7) == 7;
    assert SpaceEnd(s, 6) == 7;
    assert CodeStart(s, 0) == Some(7);
    assert !DigitAt(s, 9);
    assert ShortCodeEnd(s, 7) == Some(9);
    assert SectorNameAt(s, 0);
    assert s[7..9] == "B3";
  }

  /** A keyword does not occur where one of its letters differs. */
  lemma Mismatch(s: string, p: nat, kw: string, i: nat)
    requires i < |kw| && p + i < |s| && Lower(s[p + i]) != kw[i]
    ensures !KeywordAt(s, p, kw)
  {
  }

  const FreeText := "Wolnych miejsc: 40"

  lemma FreeTextKeyword()
    ensures KeywordEnd(FreeText, 0, AvailableKeywords) == Some(7)
  {
    var s := FreeText;
    assert Lower(s[0]) == 'w';
    Mismatch(s, 0, AvailableKeywords[0], 0);
    Mismatch(s, 0, AvailableKeywords[1], 0);
    assert KeywordAt(s, 0, AvailableKeywords[2]);
  }

  lemma FreeTextDigit()
    ensures Search(DigitAt, FreeText, 7) == Some(16)
  {
    var s := FreeText;
    forall j | 7 <= j < 16 ensures !DigitAt(s, j) {
    }
    assert DigitAt(s, 16);
    SearchAt(DigitAt, s, 7, 16);
  }

  lemma FreeTextRun()
    ensures RunEnd(FreeText, 16) == 18 && FreeText[16..18] == "40"
  {
    assert RunEnd(FreeText, 18) == 18;
  }

  lemma AvailableRunExample()
    ensures AvailableRun(FreeText) == Some("40")
  {
    FreeTextKeyword();
    FreeTextDigit();
    FreeTextRun();
    assert AvailableAt(FreeText, 0);
  }

  /** No keyword of line 50 fits anywhere in "Sektor B3". */
  lemma NoAvailableKeyword()
    ensures AvailableRun("Sektor B3") == None
  {
    var s := "Sektor B3";
    assert Lower(s[0]) == 's' && Lower(s[1]) == 'e' && Lower(s[2]) == 'k';
    forall p | 0 <= p <= |s| ensures !AvailableAt(s, p) {
      if p == 0 {
        Mismatch(s, p, AvailableKeywords[1], 0);
      }
      if p <= 2 {
        Mismatch(s, p, AvailableKeywords[2], 0);
      }
    }
    AvailableRunAbsent(s);
  }

  const TrailingCount := "Sector A12, 45 available"

  /** Before position 8, no keyword of line 50 starts. */
  lemma TrailingCountEarly(p: nat)
    requires p < 8
    ensures !AvailableAt(TrailingCount, p)
  {
    var s := TrailingCount;
    if p < 7 {
      assert Lower(s[p]) !in {'d', 'a', 'w'};
      Mismatch(s, p, AvailableKeywords[1], 0);
    } else {
      assert Lower(s[7]) == 'a' && s[8] == '1';
      Mismatch(s, p, AvailableKeywords[1], 1);
    }
    Mismatch(s, p, AvailableKeywords[0], 0);
    Mismatch(s, p, AvailableKeywords[2], 0);
  }

  /** From position 8 on, a keyword would end at 15 or later, and no digit
      comes after 14. */
  lemma TrailingCountLate(p: nat)
    requires 8 <= p <= |TrailingCount|
    ensures !AvailableAt(TrailingCount, p)
  {
    var s := TrailingCount;
    if KeywordEnd(s, p, AvailableKeywords).Some? {
      var k := KeywordEnd(s, p, AvailableKeywords).value;
      assert k >= 15;
      assert forall j | k <= j < |s| :: !DigitAt(s, j);
    }
  }

  /** With the number before `available`, line 50 finds no count: the
      pattern wants the keyword first. */
  lemma TrailingCountNotRead()
    ensures AvailableRun(TrailingCount) == None
  {
    forall p | 0 <= p <= |TrailingCount| ensures !AvailableAt(TrailingCount, p) {
      if p < 8 {
        TrailingCountEarly(p);
      } else {
        TrailingCountLate(p);
      }
    }
    AvailableRunAbsent(TrailingCount);
  }

  lemma DecimalForty()
    ensures Decimal(40) == "40"
  {
    assert Decimal(4) == "4";
  }

  lemma CountForty()
    ensures Count("40") == Ok(40)
  {
    DecimalForty();
    ParseDecimal(40);
  }

  /** Two candidates: the first names a sector and has no count, the second
      has the count. */
  lemma ReadingOfTwo(cs: seq<string>, n: nat)
    requires |cs| == 2 && HasName(cs[0]) && !HasCount(cs[0]) && HasCount(cs[1])
    requires Count(AvailableRun(cs[1]).value) == Ok(n)
    ensures Reading(cs) == Ok(Some(SectorReading(SectorName(cs[0]).value, n)))
  {
    FirstWhereUnique(cs, HasName, 0);
    forall j | 0 <= j < 1 ensures !HasCount(cs[j]) {
      assert j == 0;
    }
    FirstWhereUnique(cs, HasCount, 1);
    ReadingWhen(cs, 1, 0, n);
  }

  lemma ReadingWhen(cs: seq<string>, k: nat, j: nat, n: nat)
    requires FirstWhere(cs, HasCount) == Some(k) && FirstWhere(cs, HasName) == Some(j)
    requires Count(AvailableRun(cs[k]).value) == Ok(n)
    ensures Reading(cs) == Ok(Some(SectorReading(SectorName(cs[j]).value, n)))
  {
  }

  const LabelledElement := Element(Some("Sektor B3"), Some(FreeText), None)

  lemma LabelledCandidates()
    ensures Candidates(LabelledElement) == ["Sektor B3", FreeText]
  {
  }

  /** The name and the count come from different candidates: the name from
      `aria-label`, the count from `title`. */
  lemma ElementExample()
    ensures ElementReading(LabelledElement) == Ok(Some(SectorReading("B3", 40)))
  {
    var cs := Candidates(LabelledElement);
    LabelledCandidates();
    SectorNameExample();
    NoAvailableKeyword();
    AvailableRunExample();
    CountForty();
    assert HasName(cs[0]) && !HasCount(cs[0]) && HasCount(cs[1]);
    ReadingOfTwo(cs, 40);
  }

  /** An element labelled "Sector A12, 45 available" is skipped. */
  lemma TrailingCountElement()
    ensures ElementReading(Element(Some(TrailingCount), None, None)) == Ok(None)
  {
    var e := Element(Some(TrailingCount), None, None);
    assert Candidates(e) == [TrailingCount];
    TrailingCountNotRead();
    assert FirstWhere([TrailingCount], HasCount) == None;
  }

  const BodyText := "Dostępne: 1 234"

  lemma BodyTextRun()
    ensures GlobalRun(BodyText) == Some("1 234")
  {
    var s := BodyText;
    assert KeywordAt(s, 0, GlobalKeywords[0]);
    assert KeywordEnd(s, 0, GlobalKeywords) == Some(8);
    assert SpaceEnd(s, 8) == 8;
    assert SpaceEnd(s, 9) == 10 by {
      assert SpaceEnd(s, 10) == 10;
    }
    assert GlobalDigit(s, 0) == Some(10);
    assert GlobalAt(s, 0);
    assert RunEnd(s, 10) == 15 by {
      assert RunEnd(s, 15) == 15;
    }
    assert s[10..15] == "1 234";
  }

  lemma CountGrouped()
    ensures Count("1 234") == Ok(1234)
  {
    SpaceGroupingExample();
  }

  lemma AcceptClicked()
    ensures CookieNotes({"Akceptuj"}) == ["Clicked cookie: Akceptuj"]
  {
    var c: set<string> := {"Akceptuj"};
    assert CookieLabels[0] !in c && CookieLabels[1] !in c by {
      assert CookieLabels[0][0] != 'A' && CookieLabels[1][0] != 'A';
    }
    assert CookieLabels[2] in c;
    var l := CookieClicked(c);
    assert l == Some("Akceptuj");
    assert CookieNotePrefix + "Akceptuj" == "Clicked cookie: Akceptuj";
  }

  /** The fallback branch of `extract_data`. */
  lemma FallbackUsed(page: Page, n: nat)
    requires SectorsOf(page.elements) == Ok([])
    requires GlobalRun(page.bodyText).Some? && Count(GlobalRun(page.bodyText).value) == Ok(n)
    ensures Extract(page) == Ok(Outcome([], Some(n), Join(CookieNotes(page.clickable) + [FallbackNote], "; ")))
  {
  }

  lemma NoElements()
    ensures SectorsOf([]) == Ok([])
  {
  }

  lemma FallbackNotes()
    ensures Join(["Clicked cookie: Akceptuj"] + [FallbackNote], "; ") == "Clicked cookie: Akceptuj; Used global fallback"
  {
    var notes := ["Clicked cookie: Akceptuj"] + [FallbackNote];
    assert notes[1..] == [FallbackNote];
  }

  /** No element contributed: the body text supplies the total, and the
      notes record the cookie click and the fallback in that order. */
  lemma FallbackExample()
    ensures Extract(Page({"Akceptuj"}, [], BodyText)) ==
      Ok(Outcome([], Some(1234), "Clicked cookie: Akceptuj; Used global fallback"))
  {
    var page := Page({"Akceptuj"}, [], BodyText);
    BodyTextRun();
    CountGrouped();
    AcceptClicked();
    NoElements();
    FallbackNotes();
    FallbackUsed(page, 1234);
  }
}
