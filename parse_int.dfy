/** `parse_int` (scrape_wisla.py, lines 9-15): find the first run of digits,
    which may be grouped by whitespace, delete ASCII spaces and NO-BREAK SPACEs
    from it and convert what remains with Python's `int()`. `int()` ignores
    whitespace around the number, except the information separators
    U+001C-U+001F, but raises `ValueError` on whitespace inside it, so runs
    such as "1\t234" and "40\U{1C}" make `parse_int` raise. */
module Numbers {
  import opened Wrappers
  import opened Chars
  import opened Patterns

  /** The exception that can escape `parse_int`: `int()` refusing a literal. */
  datatype Error = InvalidLiteral(literal: string)

  predicate AllDigits(s: string) {
    forall i | 0 <= i < |s| :: IsDigit(s[i])
  }

  /** Base-10 value of a string of digits. */
  function DigitsValue(ds: string): nat
    requires AllDigits(ds)
    decreases |ds|
  {
    if ds == [] then 0 else 10 * DigitsValue(ds[..|ds| - 1]) + DigitValue(ds[|ds| - 1])
  }

  /** `str(n)`: the decimal numeral of `n`, the inverse of reading one. */
  function Decimal(n: nat): (ds: string)
    ensures ds != [] && AllDigits(ds)
  {
    if n < 10 then [DigitChar(n)] else Decimal(n / 10) + [DigitChar(n % 10)]
  }

  /** The two `.replace` calls of line 15: every space and NO-BREAK SPACE is deleted. */
  function RemoveSeparators(s: string): (r: string)
    ensures |r| <= |s|
    ensures forall i | 0 <= i < |r| :: !IsSeparator(r[i])
    ensures |s| == 1 ==> r == (if IsSeparator(s[0]) then [] else s)
  {
    if s == [] then [] else (if IsSeparator(s[0]) then [] else [s[0]]) + RemoveSeparators(s[1..])
  }

  /** The digits of `s`, in order. */
  function Digits(s: string): (ds: string)
    ensures AllDigits(ds) && |ds| <= |s|
  {
    if s == [] then [] else (if IsDigit(s[0]) then [s[0]] else []) + Digits(s[1..])
  }

  /** Drop the leading whitespace that `int()` skips. */
  function IntTrimStart(s: string): (r: string)
    ensures |r| <= |s| && r == s[|s| - |r|..]
    ensures forall i | 0 <= i < |s| - |r| :: IsIntSpace(s[i])
    ensures r == [] || !IsIntSpace(r[0])
  {
    if s != [] && IsIntSpace(s[0]) then IntTrimStart(s[1..]) else s
  }

  /** Drop the trailing whitespace that `int()` skips. */
  function IntTrimEnd(s: string): (r: string)
    ensures |r| <= |s| && r == s[..|r|]
    ensures forall i | |r| <= i < |s| :: IsIntSpace(s[i])
    ensures r == [] || !IsIntSpace(r[|r| - 1])
  {
    if s != [] && IsIntSpace(s[|s| - 1]) then IntTrimEnd(s[..|s| - 1]) else s
  }

  /** Python's `int(lit)` in base 10 on a literal without sign or
      underscores: the whitespace `int()` skips around the number is ignored
      and what is left must be digits. The error carries the literal as given. */
  function IntOf(lit: string): (r: Result<nat, Error>)
    ensures r.Err? ==> r.error == InvalidLiteral(lit)
    ensures r.Ok? ==> r.value == DigitsValue(Digits(lit))
  {
    var t := IntTrimEnd(IntTrimStart(lit));
    if t != [] && AllDigits(t) then
      TrimmedDigits(lit);
      Ok(DigitsValue(t))
    else Err(InvalidLiteral(lit))
  }

  /** When what `int()` keeps of a literal is all digits, those are the
      literal's digits. */
  lemma TrimmedDigits(lit: string)
    requires AllDigits(IntTrimEnd(IntTrimStart(lit)))
    ensures Digits(lit) == IntTrimEnd(IntTrimStart(lit))
  {
    var t := IntTrimStart(lit);
    TrimStartDigits(lit);
    TrimEndDigits(t);
    DigitsOfDigits(IntTrimEnd(t));
  }

  /** The whitespace `int()` skips holds no digit. */
  lemma TrimStartDigits(s: string)
    ensures Digits(s) == Digits(IntTrimStart(s))
  {
    var t := IntTrimStart(s);
    var pre := s[..|s| - |t|];
    assert s == pre + t;
    forall i | 0 <= i < |pre| ensures !IsDigit(pre[i]) {
      assert IsIntSpace(s[i]);
    }
    NoDigitDigits(pre);
    DigitsAppend(pre, t);
  }

  lemma TrimEndDigits(s: string)
    ensures Digits(s) == Digits(IntTrimEnd(s))
  {
    var r := IntTrimEnd(s);
    var post := s[|r|..];
    assert s == r + post;
    forall i | 0 <= i < |post| ensures !IsDigit(post[i]) {
      assert IsIntSpace(s[|r| + i]);
    }
    NoDigitDigits(post);
    DigitsAppend(r, post);
  }

  lemma {:induction false} NoDigitDigits(s: string)
    requires NoDigit(s)
    ensures Digits(s) == []
  {
    if s != [] {
      NoDigitDigits(s[1..]);
    }
  }

  /** The runs on which `int()` raises once the separators are deleted:
      whitespace other than a separator stands before a later digit, or the
      run holds an information separator, which `int()` never skips. */
  predicate MisGrouped(run: string) {
    || (exists i, j | 0 <= i < j < |run| :: IsSpace(run[i]) && !IsSeparator(run[i]) && IsDigit(run[j]))
    || (exists i | 0 <= i < |run| :: IsInfoSeparator(run[i]))
  }

  /** `parse_int(txt)` with `None` as `txt.None?`: `Ok(None)` when there is no
      number, `Ok(Some(n))` for the first digit run, `Err` when `int()` raises. */
  function ParseInt(txt: Option<string>): (r: Result<Option<nat>, Error>)
    ensures r == Ok(None) <==> txt.None? || NoDigit(txt.value)
    ensures txt.Some? && !NoDigit(txt.value) ==>
      var run := DigitRun(txt.value).value;
      r == if MisGrouped(run) then Err(InvalidLiteral(RemoveSeparators(run)))
           else Ok(Some(DigitsValue(Digits(run))))
  {
    if txt.None? || txt.value == "" then Ok(None)
    else
      match DigitRun(txt.value)
      case None => Ok(None)
      case Some(run) =>
        IntOfRun(run);
        match IntOf(RemoveSeparators(run))
        case Ok(n) => Ok(Some(n))
        case Err(e) => Err(e)
  }

  // ---------------------------------------------------------------------
  // Why `int()` accepts a run exactly when it is not MisGrouped.

  predicate HasStraySpace(s: string) {
    exists i | 0 <= i < |s| :: IsSpace(s[i]) && !IsSeparator(s[i])
  }

  lemma {:induction false} RemoveSeparatorsAppend(a: string, b: string)
    ensures RemoveSeparators(a + b) == RemoveSeparators(a) + RemoveSeparators(b)
  {
    if a == [] {
      assert a + b == b;
    } else {
      assert (a + b)[0] == a[0] && (a + b)[1..] == a[1..] + b;
      RemoveSeparatorsAppend(a[1..], b);
    }
  }

  lemma {:induction false} DigitsAppend(a: string, b: string)
    ensures Digits(a + b) == Digits(a) + Digits(b)
  {
    if a == [] {
      assert a + b == b;
    } else {
      assert (a + b)[0] == a[0] && (a + b)[1..] == a[1..] + b;
      DigitsAppend(a[1..], b);
    }
  }

  lemma MisGroupedSnoc(u: string, c: char)
    ensures MisGrouped(u + [c]) <==> MisGrouped(u) || (IsDigit(c) && HasStraySpace(u)) || IsInfoSeparator(c)
  {
    var s := u + [c];
    assert forall i | 0 <= i < |u| :: s[i] == u[i];
    assert s[|u|] == c;
    if exists i, j | 0 <= i < j < |s| :: IsSpace(s[i]) && !IsSeparator(s[i]) && IsDigit(s[j]) {
      var i, j :| 0 <= i < j < |s| && IsSpace(s[i]) && !IsSeparator(s[i]) && IsDigit(s[j]);
      if j < |u| {
        assert u[i] == s[i] && u[j] == s[j];
      } else {
        assert u[i] == s[i];
      }
    }
    if exists i | 0 <= i < |s| :: IsInfoSeparator(s[i]) {
      var i :| 0 <= i < |s| && IsInfoSeparator(s[i]);
      if i < |u| {
        assert u[i] == s[i];
      }
    }
    if exists i, j | 0 <= i < j < |u| :: IsSpace(u[i]) && !IsSeparator(u[i]) && IsDigit(u[j]) {
      var i, j :| 0 <= i < j < |u| && IsSpace(u[i]) && !IsSeparator(u[i]) && IsDigit(u[j]);
      assert s[i] == u[i] && s[j] == u[j];
    }
    if exists i | 0 <= i < |u| :: IsInfoSeparator(u[i]) {
      var i :| 0 <= i < |u| && IsInfoSeparator(u[i]);
      assert s[i] == u[i];
    }
    if IsDigit(c) && HasStraySpace(u) {
      var i :| 0 <= i < |u| && IsSpace(u[i]) && !IsSeparator(u[i]);
      assert s[i] == u[i] && s[|u|] == c;
    }
  }

  lemma HasStraySpaceCons(c: char, w: string)
    ensures HasStraySpace([c] + w) <==> (IsSpace(c) && !IsSeparator(c)) || HasStraySpace(w)
  {
    var u := [c] + w;
    assert u[0] == c;
    if HasStraySpace(w) {
      var i :| 0 <= i < |w| && IsSpace(w[i]) && !IsSeparator(w[i]);
      assert u[i + 1] == w[i];
    }
    if HasStraySpace(u) {
      var i :| 0 <= i < |u| && IsSpace(u[i]) && !IsSeparator(u[i]);
      if i > 0 { assert w[i - 1] == u[i]; }
    }
  }

  /** Deleting the separators leaves only digits exactly when there is no
      other whitespace, and then it leaves the digits. */
  lemma {:induction false} SeparatorsOnly(u: string)
    requires forall i | 0 <= i < |u| :: IsRunChar(u[i])
    ensures AllDigits(RemoveSeparators(u)) <==> !HasStraySpace(u)
    ensures AllDigits(RemoveSeparators(u)) ==> RemoveSeparators(u) == Digits(u)
  {
    if u != [] {
      var c, w := u[0], u[1..];
      assert u == [c] + w;
      SeparatorsOnly(w);
      HasStraySpaceCons(c, w);
      var rw := RemoveSeparators(w);
      if IsSeparator(c) {
        assert RemoveSeparators(u) == rw;
        assert Digits(u) == Digits(w);
      } else if IsDigit(c) {
        assert RemoveSeparators(u) == [c] + rw;
        assert Digits(u) == [c] + Digits(w);
        if !AllDigits(rw) {
          var k :| 0 <= k < |rw| && !IsDigit(rw[k]);
          assert RemoveSeparators(u)[k + 1] == rw[k];
        }
      } else {
        assert RemoveSeparators(u)[0] == c;
      }
    }
  }

  /** The last character of the literal is whitespace that `int()` skips. */
  lemma TrailingSpace(u: string, c: char)
    requires IsIntSpace(c)
    ensures IntTrimEnd(RemoveSeparators(u + [c])) == IntTrimEnd(RemoveSeparators(u))
    ensures Digits(u + [c]) == Digits(u)
    ensures MisGrouped(u + [c]) <==> MisGrouped(u)
  {
    RemoveSeparatorsAppend(u, [c]);
    DigitsAppend(u, [c]);
    MisGroupedSnoc(u, c);
    assert Digits([c]) == [];
    var lit := RemoveSeparators(u + [c]);
    if IsSeparator(c) {
      assert RemoveSeparators([c]) == [];
      assert lit == RemoveSeparators(u);
    } else {
      assert RemoveSeparators([c]) == [c];
      assert lit == RemoveSeparators(u) + [c];
      assert lit[..|lit| - 1] == RemoveSeparators(u);
    }
  }

  /** The last character of the literal is an information separator: `int()` refuses it. */
  lemma TrailingInfoSeparator(u: string, c: char)
    requires IsInfoSeparator(c)
    ensures !AllDigits(IntTrimEnd(RemoveSeparators(u + [c])))
    ensures MisGrouped(u + [c])
  {
    RemoveSeparatorsAppend(u, [c]);
    assert RemoveSeparators([c]) == [c];
    var lit := RemoveSeparators(u) + [c];
    assert IntTrimEnd(lit) == lit;
    assert lit[|lit| - 1] == c;
    MisGroupedSnoc(u, c);
  }

  lemma MisGroupedHasStraySpace(u: string)
    ensures MisGrouped(u) ==> HasStraySpace(u)
  {
  }

  lemma AllDigitsSnoc(a: string, c: char)
    ensures AllDigits(a + [c]) <==> AllDigits(a) && IsDigit(c)
  {
    var s := a + [c];
    assert s[|a|] == c;
    assert forall k | 0 <= k < |a| :: s[k] == a[k];
  }

  lemma TrimEndAtDigit(a: string, c: char)
    requires IsDigit(c)
    ensures IntTrimEnd(a + [c]) == a + [c]
  {
    assert (a + [c])[|a|] == c;
  }

  lemma AppendDigit(u: string, c: char)
    requires IsDigit(c)
    ensures RemoveSeparators(u + [c]) == RemoveSeparators(u) + [c]
    ensures Digits(u + [c]) == Digits(u) + [c]
  {
    RemoveSeparatorsAppend(u, [c]);
    assert RemoveSeparators([c]) == [c];
    DigitsAppend(u, [c]);
    assert Digits([c]) == [c];
  }

  /** The last character of the literal is a digit: all of it must be digits. */
  lemma TrailingDigit(u: string, c: char)
    requires forall i | 0 <= i < |u| :: IsRunChar(u[i])
    requires IsDigit(c)
    ensures AllDigits(IntTrimEnd(RemoveSeparators(u + [c]))) <==> !MisGrouped(u + [c])
    ensures AllDigits(IntTrimEnd(RemoveSeparators(u + [c]))) ==> IntTrimEnd(RemoveSeparators(u + [c])) == Digits(u + [c])
  {
    var ru := RemoveSeparators(u);
    AppendDigit(u, c);
    TrimEndAtDigit(ru, c);
    AllDigitsSnoc(ru, c);
    SeparatorsOnly(u);
    MisGroupedSnoc(u, c);
    MisGroupedHasStraySpace(u);
  }

  /** The heart of `int()` on a run with separators deleted. */
  lemma {:induction false} StripEndOfLiteral(s: string)
    requires forall i | 0 <= i < |s| :: IsRunChar(s[i])
    ensures AllDigits(IntTrimEnd(RemoveSeparators(s))) <==> !MisGrouped(s)
    ensures AllDigits(IntTrimEnd(RemoveSeparators(s))) ==> IntTrimEnd(RemoveSeparators(s)) == Digits(s)
  {
    if s != [] {
      var u, c := s[..|s| - 1], s[|s| - 1];
      assert s == u + [c];
      if IsDigit(c) {
        TrailingDigit(u, c);
      } else if IsInfoSeparator(c) {
        TrailingInfoSeparator(u, c);
      } else {
        StripEndOfLiteral(u);
        TrailingSpace(u, c);
      }
    }
  }

  /** `int()` of a literal that starts with a digit: nothing is trimmed at
      its start, and it is accepted exactly when its end trims to digits. */
  lemma IntOfDigitStart(lit: string)
    requires lit != [] && IsDigit(lit[0])
    ensures IntOf(lit) ==
      if AllDigits(IntTrimEnd(lit)) then Ok(DigitsValue(IntTrimEnd(lit))) else Err(InvalidLiteral(lit))
  {
    assert IntTrimStart(lit) == lit;
    var t := IntTrimEnd(lit);
    assert t != [] by {
      assert !IsIntSpace(lit[0]);
    }
  }

  /** `int()` on the run found by `parse_int`, with separators deleted. */
  lemma IntOfRun(run: string)
    requires IsRun(run)
    ensures IntOf(RemoveSeparators(run)) ==
      if MisGrouped(run) then Err(InvalidLiteral(RemoveSeparators(run))) else Ok(DigitsValue(Digits(run)))
  {
    var lit := RemoveSeparators(run);
    assert lit == [run[0]] + RemoveSeparators(run[1..]);
    StripEndOfLiteral(run);
    IntOfDigitStart(lit);
  }

  // ---------------------------------------------------------------------
  // What `parse_int` recovers.

  lemma {:induction false} DecimalValue(n: nat)
    ensures DigitsValue(Decimal(n)) == n
  {
    if n >= 10 {
      var ds := Decimal(n);
      assert ds[..|ds| - 1] == Decimal(n / 10);
      DecimalValue(n / 10);
    }
  }

  lemma {:induction false} DigitsOfDigits(ds: string)
    requires AllDigits(ds)
    ensures Digits(ds) == ds
  {
    if ds != [] {
      DigitsOfDigits(ds[1..]);
    }
  }

  /** The run found in `pre + g + post` is `g` when `pre` has no digit and
      `post` does not continue the run. */
  lemma RunBetween(pre: string, g: string, post: string)
    requires NoDigit(pre) && IsRun(g)
    requires post == [] || !IsRunChar(post[0])
    ensures DigitRun(pre + g + post) == Some(g)
  {
    var s := pre + g + post;
    var p := |pre|;
    assert s[p] == g[0];
    assert DigitAt(s, p);
    var q := Search(DigitAt, s, 0).value;
    assert q == p by {
      forall k | 0 <= k < p ensures !DigitAt(s, k) {
        assert s[k] == pre[k];
      }
    }
    var e := RunEnd(s, p);
    assert e == p + |g| by {
      forall j | p <= j < p + |g| ensures IsRunChar(s[j]) {
        assert s[j] == g[j - p];
      }
      assert post != [] ==> s[p + |g|] == post[0];
    }
    assert s[p..e] == g;
  }

  /** A run on its own is the run `parse_int` finds. */
  lemma WholeRun(g: string)
    requires IsRun(g)
    ensures DigitRun(g) == Some(g)
  {
    NoDigitEmpty();
    RunBetween([], g, []);
    assert [] + g + [] == g;
  }

  lemma NoDigitEmpty()
    ensures NoDigit([])
  {
  }

  /** A number written with space or NO-BREAK SPACE grouping, between text
      that holds no digit before it and that does not continue the run after
      it, is read as the number its digits spell. */
  lemma GroupedNumber(pre: string, g: string, post: string)
    requires NoDigit(pre)
    requires g != [] && IsDigit(g[0])
    requires forall i | 0 <= i < |g| :: IsDigit(g[i]) || IsSeparator(g[i])
    requires post == [] || !IsRunChar(post[0])
    ensures ParseInt(Some(pre + g + post)) == Ok(Some(DigitsValue(Digits(g))))
  {
    var s := pre + g + post;
    RunBetween(pre, g, post);
    assert !NoDigit(s) by {
      assert s[|pre|] == g[0];
    }
    assert forall i | 0 <= i < |g| :: !IsSpace(g[i]) || IsSeparator(g[i]);
    assert !MisGrouped(g);
  }

  /** `parse_int(str(n)) == n`. */
  lemma ParseDecimal(n: nat)
    ensures ParseInt(Some(Decimal(n))) == Ok(Some(n))
  {
    var ds := Decimal(n);
    assert ds == "" + ds + "";
    GroupedNumber("", ds, "");
    DigitsOfDigits(ds);
    DecimalValue(n);
  }

  lemma Value1234()
    ensures DigitsValue("1234") == 1234
  {
    assert "1234"[..3] == "123" && "123"[..2] == "12" && "12"[..1] == "1" && "1"[..0] == "";
  }

  lemma Value12345()
    ensures DigitsValue("12345") == 12345
  {
    assert "12345"[..4] == "1234";
    Value1234();
  }

  lemma DigitsOfExamples()
    ensures Digits("1 234") == "1234"
    ensures Digits("1 234 ") == "1234"
    ensures Digits("12\U{A0}345") == "12345"
  {
  }

  /** "1 234" is read as 1234. */
  lemma SpaceGroupingExample()
    ensures ParseInt(Some("1 234")) == Ok(Some(1234))
  {
    assert "" + "1 234" + "" == "1 234";
    GroupedNumber("", "1 234", "");
    DigitsOfExamples();
    Value1234();
  }

  /** "12 345" with a NO-BREAK SPACE is read as 12345. */
  lemma NoBreakSpaceGroupingExample()
    ensures ParseInt(Some("12\U{A0}345")) == Ok(Some(12345))
  {
    assert "" + "12\U{A0}345" + "" == "12\U{A0}345";
    GroupedNumber("", "12\U{A0}345", "");
    DigitsOfExamples();
    Value12345();
  }

  /** Text before and after the first run is ignored. */
  lemma SurroundingTextExample()
    ensures ParseInt(Some("Wolnych miejsc: 1 234 z 5 000")) == Ok(Some(1234))
  {
    assert "Wolnych miejsc: " + "1 234 " + "z 5 000" == "Wolnych miejsc: 1 234 z 5 000";
    GroupedNumber("Wolnych miejsc: ", "1 234 ", "z 5 000");
    DigitsOfExamples();
    Value1234();
  }

  /** Absent or empty text, and text without a digit, give `None`. */
  lemma AbsentExamples()
    ensures ParseInt(None) == Ok(None)
    ensures ParseInt(Some("")) == Ok(None)
    ensures ParseInt(Some("brak")) == Ok(None)
  {
    assert NoDigit("brak");
  }

  lemma TabRuns()
    ensures DigitRun("1\t234") == Some("1\t234")
    ensures DigitRun("1 234\t") == Some("1 234\t")
  {
    RunBetween("", "1\t234", "");
    assert "" + "1\t234" + "" == "1\t234";
    RunBetween("", "1 234\t", "");
    assert "" + "1 234\t" + "" == "1 234\t";
  }

  lemma InnerTabFacts()
    ensures !NoDigit("1\t234") && MisGrouped("1\t234") && RemoveSeparators("1\t234") == "1\t234"
  {
    var s := "1\t234";
    assert IsDigit(s[0]) && IsSpace(s[1]) && !IsSeparator(s[1]) && IsDigit(s[2]);
  }

  lemma NoStraySpaceExample()
    ensures !HasStraySpace("1 234")
  {
    var u := "1 234";
    forall i | 0 <= i < |u| ensures !IsSpace(u[i]) || IsSeparator(u[i]) {
      assert u[i] == ' ' || IsDigit(u[i]);
    }
  }

  lemma TrailingTabFacts()
    ensures !NoDigit("1 234\t") && !MisGrouped("1 234\t") && Digits("1 234\t") == "1234"
  {
    var u := "1 234";
    assert u + ['\t'] == "1 234\t";
    assert IsDigit(u[0]);
    MisGroupedSnoc(u, '\t');
    MisGroupedHasStraySpace(u);
    NoStraySpaceExample();
    DigitsAppend(u, ['\t']);
    assert Digits(['\t']) == [];
    DigitsOfExamples();
  }

  /** A tab inside the number makes `int()` raise. */
  lemma InnerTabExample()
    ensures ParseInt(Some("1\t234")) == Err(InvalidLiteral("1\t234"))
  {
    TabRuns();
    InnerTabFacts();
  }

  lemma InfoSeparatorRun()
    ensures DigitRun("40\U{1C}") == Some("40\U{1C}")
  {
    var run := "40\U{1C}";
    assert IsRun(run) by {
      assert forall i | 0 <= i < |run| :: IsDigit(run[i]) || run[i] == '\U{1C}';
    }
    NoDigitEmpty();
    RunBetween("", run, "");
    assert "" + run + "" == run;
  }

  lemma InfoSeparatorFacts()
    ensures !NoDigit("40\U{1C}") && MisGrouped("40\U{1C}") && RemoveSeparators("40\U{1C}") == "40\U{1C}"
  {
    var run := "40\U{1C}";
    assert IsDigit(run[0]) && IsInfoSeparator(run[2]);
    assert RemoveSeparators(run[2..]) == run[2..];
    assert RemoveSeparators(run[1..]) == run[1..];
  }

  /** An information separator after the number is whitespace to the
      pattern, so the run captures it, but `int()` refuses it. */
  lemma InfoSeparatorExample()
    ensures ParseInt(Some("40\U{1C}")) == Err(InvalidLiteral("40\U{1C}"))
  {
    InfoSeparatorRun();
    InfoSeparatorFacts();
  }

  /** A tab after the number is ignored by `int()`. */
  lemma TrailingTabExample()
    ensures ParseInt(Some("1 234\t")) == Ok(Some(1234))
  {
    TabRuns();
    TrailingTabFacts();
    Value1234();
  }
}
