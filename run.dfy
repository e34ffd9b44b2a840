/** The part of `main` (scrape_wisla.py, lines 83-98) that turns the outcome
    of `extract_data` into the snapshot row: on success its triple, on an
    exception an empty row whose notes carry the exception's message. */
module Snapshot {
  import opened Wrappers
  import opened Chars
  import opened Patterns
  import opened Numbers
  import opened Extraction
  import opened ExtractionFacts

  /** The fields of the row of lines 99-107 that depend on the page. */
  datatype Row = Row(totalAvailable: Option<nat>, sectors: seq<SectorReading>, success: bool, notes: string)

  /** The prefix of `f"extract_error: {e}"` for the `ValueError` of `int()`,
      whose message is "invalid literal for int() with base 10: %.200R". */
  const ErrorPrefix := "extract_error: invalid literal for int() with base 10: "

  /** The longest `repr` of the literal that the message keeps. */
  const ReprLimit := 200

  predicate RunChars(s: string) {
    forall i | 0 <= i < |s| :: IsRunChar(s[i])
  }

  function HexDigit(d: nat): (c: char)
    requires d < 16
    ensures IsDigit(c) || 'a' <= c <= 'f'
  {
    if d < 10 then DigitChar(d) else ('a' as int + d - 10) as char
  }

  /** `n` as `width` lower-case hexadecimal digits. */
  function Hex(n: nat, width: nat): (h: string)
    ensures |h| == width
    ensures forall i | 0 <= i < |h| :: IsDigit(h[i]) || 'a' <= h[i] <= 'f'
  {
    if width == 0 then "" else Hex(n / 16, width - 1) + [HexDigit(n % 16)]
  }

  /** How `repr` writes a digit or a whitespace character inside quotes:
      digits and the space as they are, tab, newline and carriage return by
      their letters, and every other whitespace character, none of which is
      printable, by its code point. */
  function Escape(c: char): (e: string)
    requires IsRunChar(c)
  {
    if IsDigit(c) || c == ' ' then [c]
    else if c == '\t' then "\\t"
    else if c == '\n' then "\\n"
    else if c == '\r' then "\\r"
    else if c as int < 0x100 then "\\x" + Hex(c as int, 2)
    else "\\u" + Hex(c as int, 4)
  }

  function Escaped(s: string): string
    requires RunChars(s)
  {
    if s == [] then "" else Escape(s[0]) + Escaped(s[1..])
  }

  /** `repr` of a literal made of digits and whitespace: it holds no quote,
      so Python encloses it in single quotes. */
  function Repr(lit: string): string
    requires RunChars(lit)
  {
    "'" + Escaped(lit) + "'"
  }

  /** `%.200R`: the first 200 characters of the `repr`, or all of it when it
      is shorter. */
  function Truncate(s: string, n: nat): (t: string)
    ensures |t| <= n && |t| <= |s| && t == s[..|t|]
    ensures |t| == if |s| <= n then |s| else n
    ensures |s| <= n ==> t == s
  {
    if |s| <= n then s else s[..n]
  }

  /** The notes of the failure row. */
  function ErrorNote(err: Error): string
    requires RunChars(err.literal)
  {
    ErrorPrefix + Truncate(Repr(err.literal), ReprLimit)
  }

  // ---------------------------------------------------------------------
  // What the literal of an exception can hold

  lemma {:induction false} RemoveSeparatorsRunChars(s: string)
    requires RunChars(s)
    ensures RunChars(RemoveSeparators(s))
  {
    if s != [] {
      RemoveSeparatorsRunChars(s[1..]);
      var rest := RemoveSeparators(s[1..]);
      var head: string := if IsSeparator(s[0]) then [] else [s[0]];
      assert RemoveSeparators(s) == head + rest;
      assert forall i | 0 <= i < |head| :: head[i] == s[0];
    }
  }

  lemma CountErrorLiteral(run: string)
    requires IsRun(run) && Count(run).Err?
    ensures RunChars(Count(run).error.literal)
  {
    CountOfRun(run);
    RemoveSeparatorsRunChars(run);
  }

  lemma ReadingErrorLiteral(cs: seq<string>)
    requires Reading(cs).Err?
    ensures RunChars(Reading(cs).error.literal)
  {
    var k := FirstWhere(cs, HasCount).value;
    CountErrorLiteral(AvailableRun(cs[k]).value);
  }

  /** The literal that `int()` refuses is always the first captured run with
      its separators deleted: digits and whitespace only. */
  lemma ExtractErrorLiteral(page: Page)
    requires Extract(page).Err?
    ensures RunChars(Extract(page).error.literal)
  {
    SectorsFail(page.elements);
    if SectorsOf(page.elements).Err? {
      var es := page.elements;
      var i :| 0 <= i < |es| && ElementReading(es[i]) == Err(SectorsOf(es).error) && forall j | 0 <= j < i :: ElementReading(es[j]).Ok?;
      ReadingErrorLiteral(Candidates(es[i]));
    } else {
      CountErrorLiteral(GlobalRun(page.bodyText).value);
    }
  }

  // ---------------------------------------------------------------------
  // The row

  /** Lines 83-96: the row starts empty and unsuccessful; `extract_data`
      either fills it in or its exception's message becomes the notes. */
  method TakeSnapshot(page: Page) returns (row: Row)
    ensures row.success <==> Extract(page).Ok?
    ensures Extract(page).Ok? ==>
      var x := Extract(page).value;
      row == Row(x.totalAvailable, x.sectors, true, x.notes)
    ensures Extract(page).Err? ==>
      RunChars(Extract(page).error.literal) && row == Row(None, [], false, ErrorNote(Extract(page).error))
  {
    var success := false;
    var notes := "";
    var sectors: seq<SectorReading> := [];
    var total: Option<nat> := None;
    var r := ExtractData(page);
    if r.Ok? {
      sectors, total, notes := r.value.sectors, r.value.totalAvailable, r.value.notes;
      success := true;
    } else {
      ExtractErrorLiteral(page);
      notes := ErrorNote(r.error);
    }
    row := Row(total, sectors, success, notes);
  }

  // ---------------------------------------------------------------------
  // What the failure notes promise

  /** `repr` leaves no whitespace but the space in its output: every other
      whitespace character is written as an escape. */
  lemma {:induction false} EscapedPrintable(s: string)
    requires RunChars(s)
    ensures forall i | 0 <= i < |Escaped(s)| :: !IsSpace(Escaped(s)[i]) || Escaped(s)[i] == ' '
    ensures |Escaped(s)| >= |s|
  {
    if s != [] {
      EscapedPrintable(s[1..]);
      var e, rest := Escape(s[0]), Escaped(s[1..]);
      assert forall i | 0 <= i < |e| :: !IsSpace(e[i]) || e[i] == ' ';
      assert forall i | 0 <= i < |e + rest| :: (e + rest)[i] == if i < |e| then e[i] else rest[i - |e|];
    }
  }

  /** A literal without any whitespace but spaces is quoted as it is. */
  lemma {:induction false} EscapedPlain(s: string)
    requires forall i | 0 <= i < |s| :: IsDigit(s[i]) || s[i] == ' '
    ensures Escaped(s) == s
  {
    if s != [] {
      EscapedPlain(s[1..]);
      assert s == [s[0]] + s[1..];
    }
  }

  /** The fixed prefix followed by text that starts with a quote and keeps
      no whitespace but the space. */
  lemma PrefixedNote(t: string)
    requires t != [] && t[0] == '\'' && |t| <= ReprLimit
    requires forall i | 0 <= i < |t| :: !IsSpace(t[i]) || t[i] == ' '
    ensures |ErrorPrefix + t| <= |ErrorPrefix| + ReprLimit
    ensures (ErrorPrefix + t)[..|ErrorPrefix| + 1] == ErrorPrefix + "'"
    ensures forall i | |ErrorPrefix| <= i < |ErrorPrefix + t| :: !IsSpace((ErrorPrefix + t)[i]) || (ErrorPrefix + t)[i] == ' '
  {
    var note := ErrorPrefix + t;
    assert forall i | |ErrorPrefix| <= i < |note| :: note[i] == t[i - |ErrorPrefix|];
  }

  /** The truncated `repr` starts with its quote and keeps no whitespace but the space. */
  lemma TruncatedRepr(lit: string)
    requires RunChars(lit)
    ensures var t := Truncate(Repr(lit), ReprLimit);
      t != [] && t[0] == '\'' && |t| <= ReprLimit && forall i | 0 <= i < |t| :: !IsSpace(t[i]) || t[i] == ' '
  {
    var r := Repr(lit);
    EscapedPrintable(lit);
    assert forall i | 0 <= i < |r| :: !IsSpace(r[i]) || r[i] == ' ';
    var t := Truncate(r, ReprLimit);
    assert forall i | 0 <= i < |t| :: t[i] == r[i];
  }

  /** The failure notes are the fixed prefix and a quoted rendering of the
      refused literal that keeps at most 200 characters and no whitespace
      but the space; a short literal is quoted in full, and of a long one
      exactly the first 200 characters of its quoted form are kept. */
  lemma ErrorNoteFacts(err: Error)
    requires RunChars(err.literal)
    ensures |ErrorNote(err)| <= |ErrorPrefix| + ReprLimit
    ensures ErrorNote(err)[..|ErrorPrefix| + 1] == ErrorPrefix + "'"
    ensures forall i | |ErrorPrefix| <= i < |ErrorNote(err)| :: !IsSpace(ErrorNote(err)[i]) || ErrorNote(err)[i] == ' '
    ensures |Escaped(err.literal)| + 2 <= ReprLimit ==> ErrorNote(err) == ErrorPrefix + Repr(err.literal)
    ensures |Escaped(err.literal)| + 2 > ReprLimit ==> ErrorNote(err) == ErrorPrefix + Repr(err.literal)[..ReprLimit]
  {
    TruncatedRepr(err.literal);
    PrefixedNote(Truncate(Repr(err.literal), ReprLimit));
  }

  /** The message for the run "1\t234": the tab is written as `\t`. */
  lemma TabErrorNote()
    ensures ErrorNote(InvalidLiteral("1\t234")) == ErrorPrefix + "'1\\t234'"
  {
    var lit := "1\t234";
    assert RunChars(lit) by {
      assert forall i | 0 <= i < |lit| :: IsDigit(lit[i]) || lit[i] == '\t';
    }
    assert lit == "1" + "\t" + "234";
    EscapedPlain("234");
    assert Escaped(lit) == Escape('1') + Escaped(lit[1..]);
    assert lit[1..] == "\t234";
    assert Escaped("\t234") == "\\t" + Escaped("234");
  }
}
