/**
 * The scraping run of SVS/sv_base.py:45-174: brands in mapping order, for
 * each brand its result pages from page 1 until a stop condition, and on
 * each page its listings in document order, every listing inside its own
 * `try`. What the browser shows is an input: the pages a brand's walk would
 * load, one after another, each with its listings and its next-page control.
 */
module Walk {
  import opened Wrappers
  import opened Fields
  import opened CarData

  /** One CSV data line: the cells `csv.DictWriter` writes for one row, in header order. */
  type CsvLine = seq<string>

  /** The field names line 47 gives the `DictWriter`. */
  const SourceHeader: seq<string> := ["Brand", "Title", "Kilometer", "Gas Type", "Gear Box", "Year", "Price"]

  /** Field names that are the record's own keys. */
  const RecordHeader: seq<string> := ["brand", "title", "cilinder", "hp"]

  /** The cell for `key`: its value, or the writer's default `restval` `''`. */
  function Cell(row: Row, key: string): string {
    if key in row then row[key] else ""
  }

  function Cells(header: seq<string>, row: Row): (r: CsvLine)
    ensures |r| == |header|
    ensures forall i :: 0 <= i < |header| ==> r[i] == Cell(row, header[i])
  {
    seq(|header|, (i: int) requires 0 <= i < |header| => Cell(row, header[i]))
  }

  /**
   * `DictWriter.writerow` (line 149) with the defaults `extrasaction='raise'`
   * and `restval=''`: a row holding a key that is not a field name raises
   * `ValueError`; otherwise the line has one cell per field name.
   */
  function WriteRow(header: seq<string>, row: Row): (r: Option<CsvLine>)
    ensures r.None? <==> exists k :: k in row && k !in header
    ensures r.Some? ==> |r.value| == |header|
  {
    if forall k :: k in row ==> k in header then Some(Cells(header, row)) else None
  }

  /**
   * A written line read back under its header, as `csv.DictReader` pairs
   * field names with cells (a later copy of a name wins).
   */
  function ReadRow(header: seq<string>, line: CsvLine): (m: Row)
    requires |line| == |header|
    ensures forall k :: k in m <==> k in header
    decreases |header|
  {
    if |header| == 0 then map[]
    else
      var n := |header| - 1;
      ReadRow(header[..n], line[..n])[header[n] := line[n]]
  }

  lemma {:induction false} ReadCells(header: seq<string>, row: Row)
    ensures forall k :: k in header ==> ReadRow(header, Cells(header, row))[k] == Cell(row, k)
    decreases |header|
  {
    if |header| > 0 {
      var n := |header| - 1;
      assert Cells(header, row)[..n] == Cells(header[..n], row);
      ReadCells(header[..n], row);
      forall k | k in header
        ensures ReadRow(header, Cells(header, row))[k] == Cell(row, k)
      {
        if k != header[n] {
          var i :| 0 <= i < |header| && header[i] == k;
          assert header[..n][i] == k;
        }
      }
    }
  }

  /**
   * Reading a written line back under the same header gives the row again,
   * with `''` for every field name the row lacks.
   */
  lemma WriteReadRoundTrip(header: seq<string>, row: Row)
    requires WriteRow(header, row).Some?
    ensures var back := ReadRow(header, WriteRow(header, row).value);
      && (forall k :: k in back <==> k in header)
      && (forall k :: k in row ==> back[k] == row[k])
      && (forall k :: k in back && k !in row ==> back[k] == "")
  {
    ReadCells(header, row);
  }

  /**
   * What line 146 leaves for one listing: the record, or the exception
   * that abandoned it.
   */
  type Outcome = Result<Row, Fault>

  /**
   * One listing of lines 146-152: its line, or `None` when building the
   * record or writing it raised and the `except` skipped it.
   */
  function EmitListing(header: seq<string>, o: Outcome): (r: Option<CsvLine>)
    ensures r.Some? ==> o.Ok? && |r.value| == |header|
  {
    match o
    case Err(_) => None
    case Ok(row) => WriteRow(header, row)
  }

  function Emitted(o: Option<CsvLine>): seq<CsvLine> {
    match o
    case None => []
    case Some(line) => [line]
  }

  /** Lines 95-152: the lines of a page's listings, in document order. */
  function PageLines(header: seq<string>, outcomes: seq<Outcome>): (r: seq<CsvLine>)
    ensures |r| <= |outcomes|
    ensures forall i :: 0 <= i < |r| ==> |r[i]| == |header|
    decreases |outcomes|
  {
    if |outcomes| == 0 then []
    else Emitted(EmitListing(header, outcomes[0])) + PageLines(header, outcomes[1..])
  }

  lemma {:induction false} PageLinesConcat(header: seq<string>, a: seq<Outcome>, b: seq<Outcome>)
    ensures PageLines(header, a + b) == PageLines(header, a) + PageLines(header, b)
    decreases |a|
  {
    if |a| == 0 {
      assert a + b == b;
    } else {
      assert (a + b)[1..] == a[1..] + b;
      PageLinesConcat(header, a[1..], b);
    }
  }

  /**
   * Fault isolation: listing `k` contributes its own line or nothing, and
   * the listings before and after it contribute what they would alone.
   */
  lemma ListingIsolated(header: seq<string>, outcomes: seq<Outcome>, k: nat)
    requires k < |outcomes|
    ensures PageLines(header, outcomes) ==
      PageLines(header, outcomes[..k]) + Emitted(EmitListing(header, outcomes[k])) + PageLines(header, outcomes[k + 1..])
  {
    assert outcomes == outcomes[..k] + ([outcomes[k]] + outcomes[k + 1..]);
    PageLinesConcat(header, outcomes[..k], [outcomes[k]] + outcomes[k + 1..]);
    PageLinesConcat(header, [outcomes[k]], outcomes[k + 1..]);
    assert ([outcomes[k]] + outcomes[k + 1..])[1..] == outcomes[k + 1..];
  }

  /** The next-page control as lines 155-167 find it and click it. */
  datatype NextControl =
    | NoNextControl                                              // `find_element` raises
    | NextControl(ariaDisabled: Option<string>, clickRaises: bool)  // the attribute, and whether scrolling or clicking raises

  /**
   * One loaded result page: what line 146 leaves for each listing section,
   * in document order, and the page's next-page control.
   */
  datatype Page = Page(outcomes: seq<Outcome>, next: NextControl)

  /** Why a brand's walk ended. */
  datatype Stop =
    | NoListings     // lines 90-92
    | LastPage       // lines 159-161
    | NextFailed     // lines 172-174
    | SupplyEnded    // no further page is given to the model

  /**
   * What one page decides (lines 90-92, 155-174): `None` when the walk
   * clicks through to the next page.
   */
  function PageStop(p: Page): (r: Option<Stop>)
    ensures r.None? <==> |p.outcomes| > 0 && p.next.NextControl? && p.next.ariaDisabled != Some("true") && !p.next.clickRaises
    ensures |p.outcomes| == 0 ==> r == Some(NoListings)
    ensures r.Some? && |p.outcomes| > 0 ==> (r.value == LastPage <==> p.next.NextControl? && p.next.ariaDisabled == Some("true"))
    ensures r != Some(SupplyEnded)
  {
    if |p.outcomes| == 0 then Some(NoListings)
    else
      match p.next
      case NoNextControl => Some(NextFailed)
      case NextControl(aria, raises) =>
        if aria == Some("true") then Some(LastPage)
        else if raises then Some(NextFailed)
        else None
  }

  /** A brand's walk: its lines, how many pages it loaded and why it ended. */
  datatype BrandRun = BrandRun(lines: seq<CsvLine>, pagesRead: nat, stop: Stop)

  /**
   * Lines 77-174 from page `n` on: each page's lines, then the page's
   * decision. The walk ends at the first page that decides to stop and
   * reads no page beyond it.
   */
  function WalkFrom(header: seq<string>, pages: seq<Page>, n: nat): (r: BrandRun)
    requires n <= |pages|
    ensures n <= r.pagesRead <= |pages|
    ensures r.stop == SupplyEnded ==> r.pagesRead == |pages|
    ensures r.stop != SupplyEnded ==> n < r.pagesRead && PageStop(pages[r.pagesRead - 1]) == Some(r.stop)
    ensures forall k :: n <= k < r.pagesRead && (r.stop == SupplyEnded || k < r.pagesRead - 1) ==> PageStop(pages[k]).None?
    ensures forall i :: 0 <= i < |r.lines| ==> |r.lines[i]| == |header|
    decreases |pages| - n
  {
    if n == |pages| then BrandRun([], n, SupplyEnded)
    else
      var here := PageLines(header, pages[n].outcomes);
      match PageStop(pages[n])
      case Some(stop) => BrandRun(here, n + 1, stop)
      case None =>
        var rest := WalkFrom(header, pages, n + 1);
        BrandRun(here + rest.lines, rest.pagesRead, rest.stop)
  }

  /** The lines of a run of pages, page after page. */
  function PagesLines(header: seq<string>, pages: seq<Page>): seq<CsvLine>
    decreases |pages|
  {
    if |pages| == 0 then [] else PageLines(header, pages[0].outcomes) + PagesLines(header, pages[1..])
  }

  /** A brand's lines are those of the pages it loaded, in page order. */
  lemma {:induction false} WalkLinesInPageOrder(header: seq<string>, pages: seq<Page>, n: nat)
    requires n <= |pages|
    ensures var r := WalkFrom(header, pages, n);
      r.lines == PagesLines(header, pages[n..r.pagesRead])
    decreases |pages| - n
  {
    var r := WalkFrom(header, pages, n);
    if n < |pages| {
      var read := pages[n..r.pagesRead];
      assert read[0] == pages[n];
      assert read[1..] == pages[n + 1..r.pagesRead];
      if PageStop(pages[n]).None? {
        WalkLinesInPageOrder(header, pages, n + 1);
      } else {
        assert read[1..] == [];
      }
    }
  }

  /** Pages after the one the walk stops on are never loaded: changing them changes nothing. */
  lemma {:induction false} UnreadPagesIrrelevant(header: seq<string>, pages: seq<Page>, other: seq<Page>, n: nat)
    requires n <= |pages|
    requires WalkFrom(header, pages, n).stop != SupplyEnded
    requires WalkFrom(header, pages, n).pagesRead <= |other|
    requires forall k :: n <= k < WalkFrom(header, pages, n).pagesRead ==> other[k] == pages[k]
    ensures WalkFrom(header, other, n) == WalkFrom(header, pages, n)
    decreases |pages| - n
  {
    if PageStop(pages[n]).None? {
      UnreadPagesIrrelevant(header, pages, other, n + 1);
    }
  }

  /** A page without listings ends the walk at once, whatever its next-page control. */
  lemma EmptyPageIgnoresNext(header: seq<string>, pages: seq<Page>, n: nat, next: NextControl)
    requires n < |pages| && |pages[n].outcomes| == 0
    ensures WalkFrom(header, pages[n := Page([], next)], n) == WalkFrom(header, pages, n)
    ensures WalkFrom(header, pages, n) == BrandRun([], n + 1, NoListings)
  {
  }

  /** A result page as the browser shows it: its listing sections and its next-page control. */
  datatype ListingPage = ListingPage(listings: seq<Listing>, next: NextControl)

  /** What line 146 leaves for each listing of `brand`, in document order. */
  function Outcomes(rev: Revision, brand: string, listings: seq<Listing>): (r: seq<Outcome>)
    ensures |r| == |listings|
    ensures forall i :: 0 <= i < |listings| ==> r[i] == GenerateCarData(rev, brand, listings[i])
  {
    seq(|listings|, (i: int) requires 0 <= i < |listings| => GenerateCarData(rev, brand, listings[i]))
  }

  /** The pages of one brand with every listing's record built. */
  function Loaded(rev: Revision, brand: string, pages: seq<ListingPage>): (r: seq<Page>)
    ensures |r| == |pages|
    ensures forall i :: 0 <= i < |pages| ==> r[i] == Page(Outcomes(rev, brand, pages[i].listings), pages[i].next)
  {
    seq(|pages|, (i: int) requires 0 <= i < |pages| => Page(Outcomes(rev, brand, pages[i].listings), pages[i].next))
  }

  /** One entry of the brand mapping with the pages its walk would load. */
  datatype Category = Category(brand: string, pages: seq<ListingPage>)

  /** Lines 66-174: every brand's walk from page 1, in mapping order. */
  function Run(header: seq<string>, rev: Revision, cats: seq<Category>): (r: seq<CsvLine>)
    ensures forall i :: 0 <= i < |r| ==> |r[i]| == |header|
    decreases |cats|
  {
    if |cats| == 0 then []
    else WalkFrom(header, Loaded(rev, cats[0].brand, cats[0].pages), 0).lines + Run(header, rev, cats[1..])
  }

  /** Brands contribute their lines one after another, in mapping order. */
  lemma {:induction false} RunConcat(header: seq<string>, rev: Revision, a: seq<Category>, b: seq<Category>)
    ensures Run(header, rev, a + b) == Run(header, rev, a) + Run(header, rev, b)
    decreases |a|
  {
    if |a| == 0 {
      assert a + b == b;
    } else {
      assert (a + b)[1..] == a[1..] + b;
      RunConcat(header, rev, a[1..], b);
    }
  }

  lemma RunOne(header: seq<string>, rev: Revision, c: Category)
    ensures Run(header, rev, [c]) == WalkFrom(header, Loaded(rev, c.brand, c.pages), 0).lines
  {
    assert [c][0] == c;
    assert [c][1..] == [];
  }

  /** The file as lines 45-174 write it: the header line, then every data line. */
  function CsvFileAsWritten(cats: seq<Category>): seq<CsvLine> {
    [SourceHeader] + Run(SourceHeader, AsWritten, cats)
  }

  /** Every built record carries a key the header does not name. */
  predicate NoneWritable(header: seq<string>, outcomes: seq<Outcome>) {
    forall i :: 0 <= i < |outcomes| && outcomes[i].Ok? ==> exists k :: k in outcomes[i].value && k !in header
  }

  /** A page whose every built record has a key outside the header writes nothing. */
  lemma {:induction false} UnwritablePageWritesNothing(header: seq<string>, outcomes: seq<Outcome>)
    requires NoneWritable(header, outcomes)
    ensures PageLines(header, outcomes) == []
    decreases |outcomes|
  {
    if |outcomes| > 0 {
      assert NoneWritable(header, outcomes[1..]) by {
        forall i | 0 <= i < |outcomes[1..]| && outcomes[1..][i].Ok?
          ensures exists k :: k in outcomes[1..][i].value && k !in header
        {
          assert outcomes[1..][i] == outcomes[i + 1];
        }
      }
      UnwritablePageWritesNothing(header, outcomes[1..]);
    }
  }

  /** Under a header without `brand`, no record of a brand's listings is written. */
  lemma NoBrandFieldRejectsRecords(header: seq<string>, rev: Revision, brand: string, listings: seq<Listing>)
    requires "brand" !in header
    ensures NoneWritable(header, Outcomes(rev, brand, listings))
  {
    var outcomes := Outcomes(rev, brand, listings);
    forall i | 0 <= i < |outcomes| && outcomes[i].Ok?
      ensures exists k :: k in outcomes[i].value && k !in header
    {
      assert "brand" in outcomes[i].value;
    }
  }

  lemma {:induction false} NoBrandFieldWalkWritesNothing(header: seq<string>, rev: Revision, brand: string, pages: seq<ListingPage>, n: nat)
    requires "brand" !in header && n <= |pages|
    ensures WalkFrom(header, Loaded(rev, brand, pages), n).lines == []
    decreases |pages| - n
  {
    if n < |pages| {
      var page := Loaded(rev, brand, pages)[n];
      NoBrandFieldRejectsRecords(header, rev, brand, pages[n].listings);
      UnwritablePageWritesNothing(header, page.outcomes);
      if PageStop(page).None? {
        NoBrandFieldWalkWritesNothing(header, rev, brand, pages, n + 1);
      }
    }
  }

  /**
   * Line 47 against lines 100-144: the record's keys are lower-case and the
   * field names are not, so every `writerow` raises inside the listing's
   * `try` and the file holds the header line alone.
   */
  lemma {:induction false} AsWrittenFileHoldsOnlyHeader(cats: seq<Category>)
    ensures CsvFileAsWritten(cats) == [SourceHeader]
    decreases |cats|
  {
    if |cats| > 0 {
      NoBrandFieldWalkWritesNothing(SourceHeader, AsWritten, cats[0].brand, cats[0].pages, 0);
      AsWrittenFileHoldsOnlyHeader(cats[1..]);
    }
  }

  /** The number of listings whose record is built. */
  function Built(outcomes: seq<Outcome>): nat
    decreases |outcomes|
  {
    if |outcomes| == 0 then 0
    else (if outcomes[0].Ok? then 1 else 0) + Built(outcomes[1..])
  }

  /**
   * With field names that match the record, a listing is written exactly
   * when its record is built, and its line reads back as the record.
   */
  lemma RecordHeaderWritesRecord(rev: Revision, brand: string, l: Listing)
    ensures EmitListing(RecordHeader, GenerateCarData(rev, brand, l)).Some? <==> GenerateCarData(rev, brand, l).Ok?
    ensures GenerateCarData(rev, brand, l).Ok? ==>
      var row := GenerateCarData(rev, brand, l).value;
      var back := ReadRow(RecordHeader, EmitListing(RecordHeader, GenerateCarData(rev, brand, l)).value);
      forall k :: k in row ==> k in back && back[k] == row[k]
  {
    if GenerateCarData(rev, brand, l).Ok? {
      var row := GenerateCarData(rev, brand, l).value;
      assert forall k :: k in row ==> k in RecordHeader;
      WriteReadRoundTrip(RecordHeader, row);
    }
  }

  /** Every built record has only keys the header names. */
  predicate AllWritable(header: seq<string>, outcomes: seq<Outcome>) {
    forall i :: 0 <= i < |outcomes| && outcomes[i].Ok? ==> forall k :: k in outcomes[i].value ==> k in header
  }

  /** A page whose built records fit the header writes one line per record built. */
  lemma {:induction false} WritablePageWritesEveryRecord(header: seq<string>, outcomes: seq<Outcome>)
    requires AllWritable(header, outcomes)
    ensures |PageLines(header, outcomes)| == Built(outcomes)
    decreases |outcomes|
  {
    if |outcomes| > 0 {
      assert AllWritable(header, outcomes[1..]) by {
        forall i | 0 <= i < |outcomes[1..]| && outcomes[1..][i].Ok?
          ensures forall k :: k in outcomes[1..][i].value ==> k in header
        {
          assert outcomes[1..][i] == outcomes[i + 1];
        }
      }
      WritablePageWritesEveryRecord(header, outcomes[1..]);
    }
  }

  /** With field names that match the record, a page writes one line per record built. */
  lemma RecordHeaderWritesEveryRecord(rev: Revision, brand: string, listings: seq<Listing>)
    ensures |PageLines(RecordHeader, Outcomes(rev, brand, listings))| == Built(Outcomes(rev, brand, listings))
  {
    var outcomes := Outcomes(rev, brand, listings);
    forall i | 0 <= i < |outcomes| && outcomes[i].Ok?
      ensures forall k :: k in outcomes[i].value ==> k in RecordHeader
    {
      assert outcomes[i].value.Keys <= RecordKeys;
    }
    WritablePageWritesEveryRecord(RecordHeader, outcomes);
  }

  /** Lines 95-152 as a loop over the page's listings. */
  method ProcessPage(header: seq<string>, outcomes: seq<Outcome>) returns (lines: seq<CsvLine>)
    ensures lines == PageLines(header, outcomes)
  {
    lines := [];
    var i := 0;
    while i < |outcomes|
      invariant i <= |outcomes|
      invariant lines == PageLines(header, outcomes[..i])
    {
      var line := EmitListing(header, outcomes[i]);
      if line.Some? {
        lines := lines + [line.value];
      }
      PageLinesConcat(header, outcomes[..i], [outcomes[i]]);
      assert outcomes[..i + 1] == outcomes[..i] + [outcomes[i]];
      i := i + 1;
    }
    assert outcomes[..i] == outcomes;
  }

  /** Lines 77-174 as the `while True` loop of one brand, starting at page 1. */
  method ScrapeBrand(header: seq<string>, pages: seq<Page>) returns (run: BrandRun)
    ensures run == WalkFrom(header, pages, 0)
  {
    var lines := [];
    var n := 0;
    while n < |pages|
      invariant n <= |pages|
      invariant WalkFrom(header, pages, 0) ==
        var rest := WalkFrom(header, pages, n);
        BrandRun(lines + rest.lines, rest.pagesRead, rest.stop)
    {
      var page := pages[n];
      if |page.outcomes| == 0 {
        return BrandRun(lines, n + 1, NoListings);
      }
      var here := ProcessPage(header, page.outcomes);
      lines := lines + here;
      match page.next {
        case NoNextControl =>
          return BrandRun(lines, n + 1, NextFailed);
        case NextControl(aria, raises) =>
          if aria == Some("true") {
            return BrandRun(lines, n + 1, LastPage);
          }
          if raises {
            return BrandRun(lines, n + 1, NextFailed);
          }
      }
      n := n + 1;
    }
    return BrandRun(lines, n, SupplyEnded);
  }

  /** Lines 66-174 as the loop over the brand mapping. */
  method ScrapeCatalogue(header: seq<string>, rev: Revision, cats: seq<Category>) returns (lines: seq<CsvLine>)
    ensures lines == Run(header, rev, cats)
  {
    lines := [];
    var i := 0;
    while i < |cats|
      invariant i <= |cats|
      invariant lines == Run(header, rev, cats[..i])
    {
      var pages := Loaded(rev, cats[i].brand, cats[i].pages);
      var run := ScrapeBrand(header, pages);
      RunConcat(header, rev, cats[..i], [cats[i]]);
      assert cats[..i + 1] == cats[..i] + [cats[i]];
      RunOne(header, rev, cats[i]);
      lines := lines + run.lines;
      i := i + 1;
    }
    assert cats[..i] == cats;
  }
}
