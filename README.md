# WislaTickets snapshot extraction, modelled in Dafny

`scrape_wisla.py` opens the ticket page of one Wisła Kraków match with a
headless browser and records one snapshot row. The row holds:

- the sector cards found on the page;
- the total number of free seats;
- a success flag;
- free-text notes.

This project models the part of that script that decides what the row says:

- **`parse_int`.** It finds the first run of digits in a text. The run may be
  grouped by whitespace. It deletes ASCII spaces and NO-BREAK SPACEs and
  converts the rest with Python's `int()`.
- **`extract_data`.**
  - It tries the four cookie-consent labels in order and notes the first one
    that can be clicked.
  - For every located element, it reads the `aria-label`, the `title` and
    the stripped inner text.
  - It takes the sector name from the first of these that matches
    `(Sektor|Sector)\s*([A-Z]\d{0,2}|[A-Z]+)`.
  - It takes the free-seat count from the first that matches
    `(dostępnych|available|wolnych)[^\d]*(\d[\d\s ]*)`.
  - It keeps the element only when both were found.
  - It sums the counts. When no sector was kept, it falls back to
    `(Dostępne|Available)\s*:\s*(\d[\d\s ]*)` in the body text.
- **The `try`/`except` of `main`.** A `ValueError` raised by `int()` leaves
  the row empty and unsuccessful. Its notes become
  `extract_error: invalid literal for int() with base 10: '…'`.

The browser is replaced by a `Page` value with three parts:

- the set of cookie labels whose click succeeds;
- the located elements, each with its two attributes and its inner text, or
  `None` when reading the inner text raised;
- the body text.

Regular-expression searches are written as explicit matchers. `re.search` is
`Patterns.Search`, the leftmost position at which a matcher succeeds.

`parse_int` returns `Result<Option<nat>, Error>`. `Err(InvalidLiteral(lit))`
is the `ValueError` of `int()`, and `lit` is the string that `int()` refused.
The source's Python code shows a behaviour worth knowing:

- `int()` skips whitespace around the number, but not the information
  separators U+001C–U+001F. `\s` and `str.isspace()` count those four as
  whitespace, so a run can capture them; `int()`, which skips only C's ASCII
  whitespace and non-ASCII Unicode whitespace, refuses them;
- only spaces and NO-BREAK SPACEs are deleted inside the run;
- so a run such as `"1\t234"`, `"12\n3"` or `"40\x1c"` raises. The exception
  aborts the whole extraction, not only that element;
- a run such as `"1 234\t"` parses to 1234.

`Numbers.MisGrouped` characterises exactly the runs that raise: whitespace
other than a separator before a later digit, or an information separator
anywhere in the run.

Two readings of the source that a casual description gets wrong, both
followed here as the code has them:

- **The keyword must come before the number.** Line 50 needs the keyword
  first. So "Sector A12, 45 available" gives no count, and that element is
  skipped (`Scenarios.TrailingCountNotRead`, `Scenarios.TrailingCountElement`).
- **A sector name is one letter and up to two digits.** The first
  alternative `[A-Z]\d{0,2}` always wins when a letter follows the keyword.
  So the alternative `[A-Z]+` can never take effect: "Sektor AB" gives the
  name "A" (`Patterns.CodeEnd`, `Patterns.SectorName`).

The methods follow the source's loops:

- `Extraction.ClickCookieBanner`;
- `Extraction.ScanCandidates`, the inner `for cand` loop;
- `Extraction.ReadSector`;
- `Extraction.ExtractData`, the element loop and the fallback;
- `Snapshot.TakeSnapshot`, the `try`/`except`.

Each method is proved equal to a declarative function, and the lemmas in
`extract_facts.dfy` state what those functions promise.

Files:

| file | module | contents |
|---|---|---|
| wrappers.dfy | Wrappers | `Option`, `Result` |
| chars.dfy | Chars | `\d`, `\s`, the separators, ASCII-and-Ę case folding, `str.strip`, `str.join` |
| patterns.dfy | Patterns | `re.search` and the regular expressions of lines 12, 47, 50 and 58 |
| parse_int.dfy | Numbers | `parse_int` and Python's `int()` on runs of digits and whitespace |
| extract.dfy | Extraction | `extract_data`: the cookie loop, the element loop, the total, the fallback |
| extract_facts.dfy | ExtractionFacts | properties of the extraction |
| run.dfy | Snapshot | the row of `main`, and the failure message with Python's `repr` and `%.200R` |
| scenarios.dfy | Scenarios | concrete pages and texts worked through the model |

## Model

| member | source | states |
|---|---|---|
| Patterns.Search | scrape_wisla.py:12 | `re.search`: the position found matches and no earlier position does; `None` only when no position matches |
| Patterns.SearchAt | scrape_wisla.py:12 | a search reaching a matching position with no match before it finds exactly that position |
| Patterns.DigitRun | scrape_wisla.py:12-14 | `None` exactly when the text has no digit; otherwise the run starts with a digit, holds only digits and whitespace, follows a digit-free prefix and is not followed by another digit or whitespace |
| Patterns.KeywordEnd | scrape_wisla.py:47 | an alternation of keywords ignoring case: it ends after one of the keywords matching there, and fails exactly when none matches |
| Patterns.CodeEnd | scrape_wisla.py:47 | the group `([A-Z]\d{0,2}\|[A-Z]+)` always ends where `[A-Z]\d{0,2}` ends, so its second alternative never decides the result |
| Patterns.SectorName | scrape_wisla.py:47-49 | a found name is one letter followed by at most two digits |
| Patterns.SectorNameShape | scrape_wisla.py:47-49 | a found name stands right after a sector keyword and whitespace, at the leftmost position where the pattern matches, and takes every digit after its letter up to two |
| Patterns.SectorNameAbsent | scrape_wisla.py:47-48 | no name exactly when no position carries a sector keyword, then whitespace, then a letter |
| Patterns.AvailableRun | scrape_wisla.py:50 | a captured count is a run: a digit, then digits and whitespace |
| Patterns.AvailableMatch | scrape_wisla.py:50 | the leftmost match position and the first digit after it, from which the captured run extends as far as digits and whitespace go; no earlier position matches |
| Patterns.AvailableMatchKeyword | scrape_wisla.py:50 | at the leftmost match, an availability keyword is followed only by non-digits up to the captured run |
| Patterns.AvailableRunShape | scrape_wisla.py:50-52 | a captured count follows an availability keyword and non-digits, at the leftmost position with a keyword and a later digit |
| Patterns.AvailableRunAbsent | scrape_wisla.py:50-51 | no count exactly when no availability keyword has a digit anywhere after it |
| Patterns.GlobalRun | scrape_wisla.py:58 | a captured fallback count is a run |
| Patterns.GlobalMatch | scrape_wisla.py:58 | the leftmost match: a colon, only whitespace, then the run starting at a digit and extending as far as digits and whitespace go; no earlier position matches |
| Patterns.GlobalMatchKeyword | scrape_wisla.py:58 | at the leftmost match, `Dostępne` or `Available` (any case) stands at its start, followed only by whitespace up to the colon |
| Patterns.GlobalRunAbsent | scrape_wisla.py:58-59 | no fallback count exactly when no position has a keyword, whitespace, a colon, whitespace and a digit |
| Chars.Strip | scrape_wisla.py:41 | `str.strip()`: a slice of the text with only whitespace before and after it; empty exactly when the text is all whitespace, otherwise it neither starts nor ends with whitespace |
| Chars.IsIntSpace | scrape_wisla.py:15 | the whitespace `int()` skips around a number: every `str.isspace()` character except U+001C–U+001F; a predicate without a contract |
| Chars.Join | scrape_wisla.py:62 | `"; ".join(notes)`: the parts with the separator between consecutive ones; no contract of its own, its results are stated by `ExtractionFacts.ExtractResult` and `Scenarios.FallbackExample` |
| Numbers.ParseInt | scrape_wisla.py:9-15 | `None` exactly for no text, empty text or text without a digit; otherwise it raises with the separator-free run exactly when the run is MisGrouped, or gives the value of the run's digits |
| Numbers.IntOf | scrape_wisla.py:15 | Python's `int()` in base 10: an error carries the literal as given, and an accepted literal's value is its digits read in base 10 |
| Numbers.RemoveSeparators | scrape_wisla.py:15 | the two `.replace` calls: no space or NO-BREAK SPACE left; a single character is dropped exactly when it is a separator and otherwise kept, which with `Numbers.RemoveSeparatorsAppend` keeps every other character in order |
| Numbers.RemoveSeparatorsAppend | scrape_wisla.py:15 | deleting the separators of a concatenation is deleting them from each part, so the characters kept stay in order |
| Numbers.IntOfDigitStart | scrape_wisla.py:15 | `int()` of a literal that starts with a digit trims nothing at its start and accepts it exactly when what is left after trimming its end is all digits, with their value |
| Numbers.IntOfRun | scrape_wisla.py:15 | Python's `int()` on a run with its separators deleted: refuses it exactly when it is MisGrouped, else reads its digits |
| Numbers.StripEndOfLiteral | scrape_wisla.py:15 | with separators deleted and the whitespace `int()` skips removed from the end, the run is all digits exactly when it is not MisGrouped, and those digits are the run's own |
| Numbers.SeparatorsOnly | scrape_wisla.py:15 | deleting spaces and NO-BREAK SPACEs leaves only digits exactly when the run holds no other whitespace |
| Numbers.DecimalValue | scrape_wisla.py:15 | reading back the decimal numeral of `n` gives `n` |
| Numbers.WholeRun | scrape_wisla.py:12 | a text that is itself a run is found whole by the search |
| Numbers.GroupedNumber | scrape_wisla.py:9-15 | a number written in decimal and grouped by separators parses back to itself |
| Numbers.ParseDecimal | scrape_wisla.py:9-15 | `parse_int(str(n)) == n` |
| Numbers.SpaceGroupingExample | scrape_wisla.py:15 | "1 234" parses to 1234 |
| Numbers.NoBreakSpaceGroupingExample | scrape_wisla.py:15 | "12 345", grouped with a NO-BREAK SPACE, parses to 12345 |
| Numbers.SurroundingTextExample | scrape_wisla.py:12-15 | the first number of a sentence is read and later numbers are ignored |
| Numbers.AbsentExamples | scrape_wisla.py:10-14 | `None`, "" and a text without digits give `None` |
| Numbers.InnerTabExample | scrape_wisla.py:15 | "1\t234" makes `int()` raise on the literal "1\t234" |
| Numbers.InfoSeparatorExample | scrape_wisla.py:12-15 | "40" followed by U+001C is captured whole and makes `int()` raise on that literal |
| Numbers.TrailingTabExample | scrape_wisla.py:15 | "1 234\t" parses to 1234: `int()` strips the trailing tab |
| Extraction.FirstWhere | scrape_wisla.py:46-52 | the index of the first element with the property, and `None` exactly when no element has it |
| Extraction.FirstWhereStep | scrape_wisla.py:48-51 | one more candidate changes the first match only if there was none so far |
| Extraction.CookieClicked | scrape_wisla.py:20-26 | the label the loop stops at is the first of the four labels in order whose click succeeds; `None` exactly when none succeeds |
| Extraction.ClickCookieBanner | scrape_wisla.py:20-26 | the loop's notes are those of `CookieNotes` |
| Extraction.CookieNotes | scrape_wisla.py:20-26 | the notes of the cookie loop; no contract of its own, stated by `ExtractionFacts.CookieNoteFacts` |
| Extraction.InnerText | scrape_wisla.py:39-43 | `txt`: the stripped inner text, or "" when reading it raised; no contract of its own beyond that of `Chars.Strip` |
| Extraction.Present | scrape_wisla.py:46 | `filter(None, ...)` drops a value exactly when it is missing or empty, and otherwise keeps the value itself |
| Extraction.Candidates | scrape_wisla.py:39-46 | at most three candidates, none of them empty, each the aria-label, the title or the stripped inner text; their order is stated by `ExtractionFacts.CandidatesFirst` |
| Extraction.Reading | scrape_wisla.py:44-54 | the reading of an element's candidates; no contract of its own, stated by `ExtractionFacts.ReadingFails`, `ReadingFound` and `ReadingPresent` |
| Extraction.Count | scrape_wisla.py:52 | `parse_int(mfree.group(2))` (and `parse_int(m.group(2))` of line 60) on a captured run; no contract of its own, stated by `Extraction.CountOfRun` |
| Extraction.CountOfRun | scrape_wisla.py:52 | `parse_int` of a captured run is never `None`: it raises exactly when the run is MisGrouped, else gives its digits' value |
| Extraction.ScanCandidates | scrape_wisla.py:44-52 | the `for cand` loop gives the reading of the candidates: name from the first naming candidate, count from the first candidate with the phrase, and the exception of that count |
| Extraction.ElementReading | scrape_wisla.py:36-54 | what one element contributes; no contract of its own, stated by `ExtractionFacts.ElementReadingSources`, `ReadingFails` and `ReadingFound`, and computed by `Extraction.ReadSector` |
| Extraction.ReadSector | scrape_wisla.py:36-54 | one element's reading, inner text stripped and "" when it could not be read |
| Extraction.Collect | scrape_wisla.py:35-54 | the `sectors` list after the element loop, or the exception that ended it; no contract of its own, stated by `ExtractionFacts.CollectAppend`, `CollectFails` and `CollectFrom` |
| Extraction.SectorsOf | scrape_wisla.py:35-54 | the element loop over the located elements; no contract of its own, stated by `ExtractionFacts.SectorsOfAppend`, `SectorsFail` and `SectorsWellFormed` |
| Extraction.Sum | scrape_wisla.py:55 | the sum of the counts; no contract of its own, stated by `ExtractionFacts.SumAppend` and `SumBounds` |
| Extraction.Extract | scrape_wisla.py:17-62 | the result of `extract_data`; no contract of its own, stated by `ExtractionFacts.ExtractResult`, `ExtractFails` and `BodyTextIgnored` |
| Extraction.Readings | scrape_wisla.py:35-54 | one contribution per located element, in the locator's order; the loop over them is stated by `Extraction.SectorsOfStep` |
| Extraction.SectorsOfStep | scrape_wisla.py:35-54 | one more element appends its sector, skips it, or ends the loop with its exception |
| Extraction.SectorsErrorPersists | scrape_wisla.py:35-52 | once an element raises, the later elements do not matter |
| Extraction.ExtractData | scrape_wisla.py:17-62 | the body of `extract_data` returns exactly `Extract(page)`, or its exception |
| ExtractionFacts.CookieNoteFacts | scrape_wisla.py:20-26 | at most one cookie note; none exactly when no label is clickable; otherwise the prefix and the first clickable label |
| ExtractionFacts.ReadingFails | scrape_wisla.py:50-52 | an element raises exactly when the run of its first candidate with the phrase is MisGrouped, whatever its names |
| ExtractionFacts.ReadingFound | scrape_wisla.py:44-54 | a kept sector's name is a sector code taken from the first naming candidate, and its count is the value of the first phrase candidate's run |
| ExtractionFacts.ReadingPresent | scrape_wisla.py:53-54 | without an exception, an element is kept exactly when some candidate names a sector and some candidate, maybe another one, has the phrase |
| ExtractionFacts.FirstText | scrape_wisla.py:46-51 | the first of aria-label, title and stripped inner text, in that order, with the property; `None` only when none of the three has it |
| ExtractionFacts.PresentFirst | scrape_wisla.py:46 | for any three optional texts and a property the empty text lacks, the filtered sequence has a text with the property exactly when one of the three has it, and the first one it finds is the first of the three in order |
| ExtractionFacts.CandidatesFirst | scrape_wisla.py:46 | dropping missing and empty values does not change which text is the first to name a sector or to have the phrase: the first candidate with the property is `FirstText` |
| ExtractionFacts.ElementReadingSources | scrape_wisla.py:36-54 | an element's reading stated on its three texts: the count from the first of aria-label, title and inner text that has the phrase, then the name from the first of them that names a sector |
| ExtractionFacts.CollectAppend | scrape_wisla.py:35-54 | the element loop over two parts is the first part's sectors followed by the second part's, failing with the first exception |
| ExtractionFacts.CollectFails | scrape_wisla.py:35-54 | the loop raises exactly when some element raises, and the exception is the first element's exception |
| ExtractionFacts.CollectFrom | scrape_wisla.py:53-54 | the loop keeps no more sectors than elements, and each kept sector is some element's reading |
| ExtractionFacts.SectorsOfAppend | scrape_wisla.py:35-54 | the sectors of two element lists are the concatenation of their sectors |
| ExtractionFacts.SectorsFail | scrape_wisla.py:35-54 | the element loop raises exactly when some element raises, with the first element's exception |
| ExtractionFacts.SectorsWellFormed | scrape_wisla.py:53-54 | at most one sector per element, and every sector name is a sector code |
| ExtractionFacts.SumAppend | scrape_wisla.py:55 | the total of two sector lists is the sum of their totals |
| ExtractionFacts.SumBounds | scrape_wisla.py:55 | every count is at most the total, and the total is 0 exactly when every count is 0 |
| ExtractionFacts.ExtractResult | scrape_wisla.py:55-62 | the sectors are the element loop's; with sectors the total is their sum; no total exactly when there are no sectors and no fallback match; the fallback total is the value of its run; the notes join the cookie note and, when the fallback gave the total, the fallback note |
| ExtractionFacts.ExtractFails | scrape_wisla.py:35-60 | `extract_data` raises exactly when some element raises, or no sector was kept and the fallback run is MisGrouped |
| ExtractionFacts.BodyTextIgnored | scrape_wisla.py:56-57 | when some sector was kept, the body text does not change the result |
| Snapshot.Truncate | scrape_wisla.py:96 | `%.200R` keeps the prefix of length min(length, 200): all of a shorter text, exactly the first 200 characters of a longer one |
| Snapshot.Repr | scrape_wisla.py:96 | `repr` of the refused literal in single quotes; no contract of its own, stated by `Snapshot.EscapedPrintable`, `EscapedPlain` and `TabErrorNote` |
| Snapshot.ErrorNote | scrape_wisla.py:96 | `f"extract_error: {e}"` for the `ValueError`; no contract of its own, stated by `Snapshot.ErrorNoteFacts` |
| Snapshot.ExtractErrorLiteral | scrape_wisla.py:92-96 | the literal of any exception of `extract_data` holds only digits and whitespace |
| Snapshot.TakeSnapshot | scrape_wisla.py:83-96 | success exactly when `extract_data` returns; then the row holds its triple; otherwise the row is empty and its notes are the error message |
| Snapshot.EscapedPrintable | scrape_wisla.py:96 | `repr` writes every whitespace character but the space as an escape, and never shortens the text |
| Snapshot.EscapedPlain | scrape_wisla.py:96 | a literal of digits and spaces is written as it is |
| Snapshot.ErrorNoteFacts | scrape_wisla.py:96 | the failure notes are the fixed prefix and a quote, at most 200 further characters, no whitespace but the space; the whole quoted literal when it is short, and exactly its first 200 characters when it is long |
| Snapshot.TabErrorNote | scrape_wisla.py:96 | the notes for the literal "1\t234" are the prefix followed by `'1\t234'` |
| Scenarios.SectorNameExample | scrape_wisla.py:47-49 | "Sektor B3" names sector "B3" |
| Scenarios.AvailableRunExample | scrape_wisla.py:50 | "Wolnych miejsc: 40" captures "40" |
| Scenarios.NoAvailableKeyword | scrape_wisla.py:50-51 | "Sektor B3" has no count |
| Scenarios.TrailingCountNotRead | scrape_wisla.py:50-51 | "Sector A12, 45 available" has no count: the number precedes the keyword |
| Scenarios.CountForty | scrape_wisla.py:52 | the run "40" counts 40 |
| Scenarios.ElementExample | scrape_wisla.py:44-54 | an element labelled "Sektor B3" with title "Wolnych miejsc: 40" is sector B3 with 40 seats, name and count from different candidates |
| Scenarios.TrailingCountElement | scrape_wisla.py:53-54 | an element whose only text is "Sector A12, 45 available" is skipped |
| Scenarios.BodyTextRun | scrape_wisla.py:58 | "Dostępne: 1 234" captures "1 234" |
| Scenarios.AcceptClicked | scrape_wisla.py:20-24 | when only "Akceptuj" is clickable, the note is "Clicked cookie: Akceptuj" |
| Scenarios.FallbackExample | scrape_wisla.py:55-62 | a page with no elements and body "Dostępne: 1 234" gives no sectors, total 1234, and the notes "Clicked cookie: Akceptuj; Used global fallback" |

## Left out

- Browser I/O: loading, navigation and `wait_for_load_state` are left out; the page is an input value (`Page`).
- Timeouts and exceptions of the browser driver raised outside a `try` block are left out: `wait_for_selector` (line 27), `get_attribute` (lines 37-38) and the body's `inner_text` (line 57). The exceptions caught inside a `try` block are modelled: a failed click is a label missing from `clickable`, a failed `count()` is an empty element list, and a failed `inner_text()` is `None`.
- Which elements the CSS selectors of lines 27 and 30 locate, and how `get_by_text(label, exact=False)` finds a button: both are done by the browser, so they are inputs.
- The exception message of anything other than the `ValueError` of `int()`: only that exception can arise in the modelled code.
- `to_csv`, `argparse`, the environment variables and `sys.exit`: configuration and file output (lines 64-81, 108). `ALERT_THRESHOLD` is read and never used.
- Snapshot.Row: it does not hold the timestamp, the event id, the URL or the JSON serialisation of the sectors (lines 99-107), because they do not depend on the page. It also leaves out the final `print`.
- Chars.IsDigit: `\d` and `int()` also accept non-ASCII decimal digits in Python; the model accepts only ASCII digits.
- Chars.Lower: `re.I` also folds a few non-ASCII characters onto ASCII letters (KELVIN SIGN, LATIN SMALL LETTER LONG S, dotted and dotless i); the model folds only ASCII letters and Ę.
- Numbers.IntOf: the signs and underscores that `int()` also accepts cannot occur in a captured run, so the model of `int()` leaves them out.
- Numbers.ParseInt: does not model CPython's limit of 4300 digits on `int()` of a string, because it is interpreter configuration.
- Patterns.GlobalRun: the existential "keyword, whitespace, colon, whitespace, run" summary is stated through `Patterns.GlobalMatch` and `Patterns.GlobalMatchKeyword` instead of a single lemma over `GlobalRun`.
- Sold-ticket counts, stadium capacity and threshold alerts: `scrape_wisla.py` does not compute them.
