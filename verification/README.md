# standvirtual scraper: listing extraction and page walk

A Dafny model of the decision-making core of `SVS/sv_base.py`, a scraper that
walks the car listings of standvirtual.com brand by brand and writes one CSV
line per listing. Three parts are modelled:

- **The engine line** (`Engine`, `engine.dfy`). The regular expression
  `(?P<cylinder>\d{1,3}\s?\d{3})\s*cm3\s*•\s*(?P<horsepower>\d+)\s*cv`
  is stated declaratively as `MatchesAt`. `ParseAt` is a deterministic
  recogniser, proved sound and complete against `MatchesAt`. `Search` is
  `re.search`: the leftmost start index at which the pattern matches. The
  module then says what `cilinder` and `hp` become.
- **The per-listing record** (`PyText`, `Fields`, `CarData`).
  `generate_car_data_dict` builds `brand`, `title` and the engine keys. It also
  computes the mileage, fuel type, gearbox, year and price but never stores
  them; only their lookups can still raise and so abandon the listing. The
  Python string operations these steps use are modelled over `seq<char>`:
  `str.replace(p, "")`, `str.strip()`, `\d` and `\s`.
- **The walk** (`Walk`, `walk.dfy`). Brands are visited in mapping order; each
  brand's pages are visited from page 1 until a stop condition. A page's
  listings are visited in document order, each inside its own `try`. Every
  record goes through `csv.DictWriter.writerow`.

Every document lookup (BeautifulSoup `find`, `.string`, `.text`,
`stripped_strings`; Selenium `find_element`, `get_attribute`, the scripted
click) is an input. `None` stands for a lookup that gave nothing, so the next
attribute access on it raises. A brand's pages are the finite sequence of
pages its walk would load, one after another. Exceptions become `Result` and
`Option` values.

The record is modelled in two revisions (`CarData.Revision`). `AsWritten`
is the code as it stands, whose title is always `''` (see Findings).
`Corrected` stores the first stripped string of the title link. Every
record lemma and the walk hold for both.

## Model

| member | source | states |
|---|---|---|
| Engine.GroupSound | SVS/sv_base.py:116 | a `cylinder` group the recogniser finds is 1-3 digits, at most one whitespace character, then 3 digits |
| Engine.GroupComplete | SVS/sv_base.py:116 | every match of `\d{1,3}\s?\d{3}` at an index that is followed by a non-digit, as the rest of the pattern requires, is the one the recogniser finds |
| Engine.GapSound | SVS/sv_base.py:116 | `\s*` followed by a literal word is found only over whitespace, ending at that word |
| Engine.GapComplete | SVS/sv_base.py:116 | whitespace followed by the word is always found, at that word |
| Engine.PowerSound | SVS/sv_base.py:116 | a found `horsepower` group is 1 or more digits, between whitespace, before `cv` |
| Engine.PowerComplete | SVS/sv_base.py:116 | every match of `\s*(?P<horsepower>\d+)\s*cv` is the one found |
| Engine.TailSound | SVS/sv_base.py:116 | a found tail is `\s*cm3\s*•` followed by the power piece |
| Engine.TailComplete | SVS/sv_base.py:116 | every match of the tail is the one found |
| Engine.TailStartsWithNoDigit | SVS/sv_base.py:116 | the tail cannot start on a digit, so the cylinder's 3 trailing digits are never more |
| Engine.ParseSound | SVS/sv_base.py:116 | a parse the recogniser returns at index i is a match of the whole pattern at i |
| Engine.ParseComplete | SVS/sv_base.py:116 | every match of the whole pattern at i is returned by the recogniser at i |
| Engine.MatchUnique | SVS/sv_base.py:116 | at a given start index the pattern matches in at most one way, so backtracking order cannot change the groups |
| Engine.SearchLeftmost | SVS/sv_base.py:117 | `re.search` returns a match with no match at any earlier index, and returns none exactly when the pattern matches nowhere |
| Engine.EngineField | SVS/sv_base.py:114-125 | the block raises exactly when the `p` lookup gives nothing; a found `cilinder` has no ASCII space and a found `hp` is 1 or more digits |
| Engine.EngineEntries | SVS/sv_base.py:119-124 | `cilinder` and `hp` are set together or not at all: both `''` after an exception, neither without a match, both from the groups on a match |
| Engine.CylinderSpacesRemoved | SVS/sv_base.py:120 | removing ASCII spaces from the `cylinder` group drops the separator only if it is an ASCII space; a tab or no-break space survives |
| Engine.EngineFieldGroups | SVS/sv_base.py:116-121 | for the leftmost match, `cilinder` is the leading digits, the separator unless it is an ASCII space, and the 3 last digits; `hp` is the horsepower group |
| EngineExamples.GroupOfPieces | SVS/sv_base.py:116 | 1-3 digits, at most one whitespace character and 3 digits at the start of a line match the `cylinder` group |
| EngineExamples.TailOfPieces | SVS/sv_base.py:116 | the text `" cm3 • <digits> cv"` matches the rest of the pattern, with the digits as `horsepower` |
| EngineExamples.FieldAtStart | SVS/sv_base.py:116-121 | a match at index 0 gives its own groups as `cilinder` and `hp` |
| EngineExamples.FieldOfPieces | SVS/sv_base.py:114-121 | a line cut into those pieces gives the two digit groups, joined unless the separator is something other than an ASCII space, and the horsepower digits |
| EngineExamples.EngineLineShape | SVS/sv_base.py:114-121 | every line `"<a><sep><b> cm3 • <h> cv"` of the advertised shape gives `cilinder` = `a`, then `sep` unless it is an ASCII space, then `b`; and `hp` = `h`. So `"123 456 cm3 • 90 cv"` gives `"123456"` and `"90"`, and a no-break-space separator survives |
| Engine.EngineFieldNoMatch | SVS/sv_base.py:117-119 | neither key is stored exactly when the line exists and the pattern matches nowhere in it |
| Engine.RunSpan | SVS/sv_base.py:116 | the measured run of digits or whitespace is all of that class |
| Engine.RunExact | SVS/sv_base.py:116 | a run stops at the first character outside its class |
| Engine.RunAtLeast | SVS/sv_base.py:116 | a run is at least as long as any span of its class from the same index |
| PyText.RemoveCharGone | SVS/sv_base.py:130 | `.replace(" ", "")` leaves no ASCII space |
| PyText.RemoveCharBetween | SVS/sv_base.py:120 | removing a character that occurs only in a one-character middle piece drops exactly that piece |
| PyText.RemoveTrailingPattern | SVS/sv_base.py:130 | removing a two-character-distinct suffix pattern that occurs nowhere earlier gives back the prefix |
| PyText.RemoveAbsentPattern | SVS/sv_base.py:130 | `.replace` of a pattern that does not occur changes nothing |
| PyText.StripInfix | SVS/sv_base.py:142 | `.strip()` gives the infix left after the leading and before the trailing whitespace |
| PyText.StripIdempotent | SVS/sv_base.py:142 | stripping twice is stripping once |
| Fields.StrippedStrings | SVS/sv_base.py:108 | every stripped string is non-empty and has no whitespace at either end |
| Fields.TitleIsFirstVisibleText | SVS/sv_base.py:107-111 | the title is the first text node that is not blank, stripped, and `''` exactly when every node is blank |
| Fields.Title | SVS/sv_base.py:107-111 | a failed title lookup gives `''`; a title never has whitespace at either end |
| Fields.TitleAsWrittenLosesTitle | SVS/sv_base.py:108 | a listing with visible title text still gets `''`, where the intended title is non-empty |
| Fields.NormaliseMileage | SVS/sv_base.py:129-130 | a missing tag gives `"1"`; a tag without a single string raises; otherwise the result has no ASCII space and only characters of the tag's text |
| Fields.MileageOfReading | SVS/sv_base.py:130 | `"<x> km"` gives `x` with its spaces removed, for any `x` without `k` |
| Fields.MileageIdempotent | SVS/sv_base.py:130 | normalising a normalised mileage changes nothing |
| Fields.OrNotAvailable | SVS/sv_base.py:132-139 | a present field is its text unchanged; the result is `"N/A"` exactly when the field is missing or its text is `"N/A"` |
| Fields.NormalisePrice | SVS/sv_base.py:141-142 | a missing container gives `"N/A"`; otherwise the price has no ASCII space, no outer whitespace and is no longer than the text |
| Fields.PriceOfAmount | SVS/sv_base.py:142 | `"<x>EUR"` gives `x` with spaces removed and stripped, for any `x` without `U` |
| Fields.Normalise | SVS/sv_base.py:127-142 | the listing is abandoned exactly when the info list is missing or the mileage tag has no single string; otherwise each value is its field's normal form |
| CarData.Assemble | SVS/sv_base.py:100-125 | the record's keys are `brand`, `title` and the engine keys, with their values |
| CarData.GenerateCarData | SVS/sv_base.py:99-144 | the record fails exactly when normalisation raises, with the same fault. Otherwise its keys are exactly `brand`, `title` and the engine keys the engine block stores, so neither engine key is present when the line does not match. `brand` is the brand, the engine values are those of the block, and `title` is `''` as written and the first stripped string once corrected |
| CarData.RevisionsDifferInTitleOnly | SVS/sv_base.py:107-111 | the as-written and the corrected record fail together and otherwise differ only in `title` |
| CarData.AsWrittenRecordLosesTitle | SVS/sv_base.py:108-110 | a listing whose title link shows text gets the title `''` as written, where the corrected record's title is not empty |
| CarData.RecordIgnoresNormalisedFields | SVS/sv_base.py:127-144 | mileage, fuel type, gearbox, year and price never reach the record: listings agreeing on title and engine give the same record |
| CarData.RecordDefaults | SVS/sv_base.py:104-125 | failed title and engine lookups give a record with all four keys, `title`, `cilinder` and `hp` empty |
| Walk.WriteRow | SVS/sv_base.py:149 | `writerow` raises exactly when the row has a key that is not a field name; otherwise one cell per field name |
| Walk.ReadRow | SVS/sv_base.py:149 | a line read back under its header has exactly the field names as keys |
| Walk.WriteReadRoundTrip | SVS/sv_base.py:149 | a written line read back gives the row again, with `''` for the field names the row lacks |
| Walk.EmitListing | SVS/sv_base.py:146-152 | a line is written only for a built record, one cell per field name |
| Walk.PageLines | SVS/sv_base.py:95-152 | a page writes at most one line per listing, each as wide as the header |
| Walk.PageLinesConcat | SVS/sv_base.py:95-152 | the lines of two runs of listings are the lines of the first, then of the second |
| Walk.ListingIsolated | SVS/sv_base.py:95-152 | a listing adds its own line or nothing; the listings before and after it add what they would alone |
| Walk.PageStop | SVS/sv_base.py:89-174 | a page moves on exactly when it has listings and a next control that is found, not `aria-disabled="true"`, and clicked without error; an empty page stops whatever its control |
| Walk.WalkFrom | SVS/sv_base.py:77-174 | a brand's walk stops on the first page that decides to stop, after every earlier page moved on, and loads no page beyond it |
| Walk.WalkLinesInPageOrder | SVS/sv_base.py:77-174 | a brand's lines are those of the pages it loaded, in page order |
| Walk.UnreadPagesIrrelevant | SVS/sv_base.py:77-174 | pages after the stopping page do not affect the walk |
| Walk.EmptyPageIgnoresNext | SVS/sv_base.py:89-92 | a page without listings ends the walk with no lines, whatever its next control |
| Walk.Run | SVS/sv_base.py:66-174 | every line of the run is as wide as the header |
| Walk.RunConcat | SVS/sv_base.py:66 | brands contribute their lines one after another, in mapping order |
| Walk.UnwritablePageWritesNothing | SVS/sv_base.py:146-152 | when every built record has a key outside the header, the page writes nothing |
| Walk.NoBrandFieldRejectsRecords | SVS/sv_base.py:47-149 | under a header without `brand`, no record can be written |
| Walk.NoBrandFieldWalkWritesNothing | SVS/sv_base.py:47-174 | under a header without `brand`, a brand's walk writes nothing |
| Walk.AsWrittenFileHoldsOnlyHeader | SVS/sv_base.py:45-174 | as written, the CSV file holds only its header line |
| Walk.WritablePageWritesEveryRecord | SVS/sv_base.py:146-152 | when every built record fits the header, a page writes one line per record built |
| Walk.RecordHeaderWritesRecord | SVS/sv_base.py:99-152 | with field names equal to the record keys, a listing is written exactly when its record is built, and its line reads back as the record |
| Walk.RecordHeaderWritesEveryRecord | SVS/sv_base.py:95-152 | with field names equal to the record keys, a page writes one line per record built |
| Walk.ProcessPage | SVS/sv_base.py:95-152 | the loop over a page's listings writes the page's lines |
| Walk.ScrapeBrand | SVS/sv_base.py:77-174 | the `while True` loop of one brand gives the brand's walk |
| Walk.ScrapeCatalogue | SVS/sv_base.py:66-174 | the loop over the brand mapping gives the run's lines |

## Left out

- Browser setup, navigation, the cookie-consent click, screenshots, `time.sleep` and `random.uniform` delays, and the final `driver.quit` (lines 14-23, 52-63, 71-75, 164-170, 176-179). These are I/O and timing.
- BeautifulSoup and Selenium lookups are inputs, not modelled. A lookup that returns nothing is `None`, and the raise that follows is modelled.
- CSV quoting, encoding and the `utf-8-sig` file are not modelled. A line is its sequence of cells. Only the field-name check of `writerow` and the `restval` default are modelled.
- The total-cars print at lines 83-84 is diagnostic. Its unguarded `.b` access can raise outside every `try`; that crash is not modelled.
- The date in the file name (line 26) and the brand slug and URLs (line 70) are not modelled. `brand_urls` comes from `dictionary.py`, which is not part of this model; brands are an input sequence.
- Diagnostic `print` calls are left out.
- A brand's pages are a finite input sequence. Running past its end stops the walk with `SupplyEnded`. An endless site is therefore not modelled.
- Engine.EngineField: `\d` is taken as the ASCII digits. Python's `str` patterns also accept other Unicode decimal digits.
- PyText.IsSpace: `\s` and `str.strip()` use the `str.isspace` set listed in `text.dfy`.
- No lemma evaluates a concrete string, because a literal makes the solver unroll every function over it; `EngineExamples.EngineLineShape` states the documented example for every line of its shape instead.
- Exceptions are modelled by where they occur, not by their Python type.

## Findings

| source | as written | input that shows it | evidently intended | confidence | as-written member | corrected member |
|---|---|---|---|---|---|---|
| SVS/sv_base.py:108 | `stripped_strings[0]` subscripts a generator, which raises `TypeError`; the handler stores `''` | any listing whose title link has text, e.g. the single node `"BMW 320d"` | the first stripped string of the title link, `"BMW 320d"` | high; not executed | CarData.AsWrittenRecordLosesTitle | Fields.TitleIsFirstVisibleText |
| SVS/sv_base.py:47 | the `DictWriter` field names are capitalised (`"Brand"`, `"Title"`, …), but the record keys are `brand`, `title`, `cilinder`, `hp`. `writerow` raises `ValueError` for every record inside the listing's `try` | any listing whose record is built, e.g. one with an info list and no mileage tag | field names matching the record's keys, so that every built record is written | high; not executed | Walk.AsWrittenFileHoldsOnlyHeader | Walk.RecordHeaderWritesEveryRecord |
