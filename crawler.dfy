/** The list scrape of the crawler (server/src/crawler/crawler.service.ts):
    rows of the schedule table become IPO entries. Fetching, EUC-KR decoding
    and DOM selection are outside the model; a row is the text of its name
    cell and the texts of all its cells. */
module Crawler {
  import opened Wrappers
  import opened Text
  import opened Collections

  /** One `tr` of the schedule table: the text of its `td[height="30"]` cell
      and the text of each `td`, in order. */
  datatype Row = Row(nameCell: string, cells: seq<string>)

  /** An entry pushed onto `ipoList`. Dates stay raw strings. */
  datatype ScrapedIpo = ScrapedIpo(
    name: string,
    subStart: Option<string>,
    subEnd: Option<string>,
    offerPrice: string,
    bandPrice: string,
    competition: string,
    underwriter: string)

  /** Why the whole scrape failed: the page could not be fetched or decoded. */
  datatype CrawlError = FetchFailed | DecodeFailed

  /** Column positions of the schedule table. */
  const ScheduleColumn: nat := 1
  const OfferPriceColumn: nat := 2
  const BandPriceColumn: nat := 3
  const CompetitionColumn: nat := 4
  const UnderwriterColumn: nat := 5

  /** `$(tds[k]).text().trim()`; a missing cell reads as the empty string. */
  function CellText(row: Row, k: nat): (t: string)
    ensures IsTrimmed(t)
    ensures k >= |row.cells| ==> t == ""
  {
    if k < |row.cells| then Trim(row.cells[k]) else ""
  }

  /** `parseDates`: split a schedule cell such as "2023.12.19~12.20" at '~'
      and trim both sides; no date conversion. Without '~' both are `None`.
      With it, the start is the trimmed text before the first '~' and the end
      the trimmed text between the first and the second '~' (or the end of the
      text); anything after a second '~' is dropped. */
  function ParseDates(raw: string): (r: (Option<string>, Option<string>))
    ensures '~' !in raw <==> r == (None, None)
    ensures '~' in raw ==>
      var i := FirstOf(raw, '~');
      i < |raw| && r == (Some(Trim(raw[..i])), Some(Trim(raw[i + 1..NextOf(raw, i + 1, '~')])))
    ensures r.0.Some? ==> r.1.Some? && IsTrimmed(r.0.value) && IsTrimmed(r.1.value)
    ensures r.0.Some? ==> '~' !in r.0.value && '~' !in r.1.value
  {
    if '~' !in raw then (None, None)
    else
      var parts := SplitFirstTwo(raw, '~');
      TrimKeepsOut(parts.0, '~');
      TrimKeepsOut(parts.1, '~');
      (Some(Trim(parts.0)), Some(Trim(parts.1)))
  }

  /** The noise tokens `(유)` and `(주)` removed from a name, first occurrence
      of each only, and the rest trimmed. */
  function CleanName(name: string): (r: string)
    ensures IsTrimmed(r)
    ensures r == Trim(ReplaceFirst(ReplaceFirst(name, "(유)", ""), "(주)", ""))
  {
    Trim(ReplaceFirst(ReplaceFirst(name, "(유)", ""), "(주)", ""))
  }

  /** A name without either token is only trimmed. */
  lemma CleanNameWithoutTokens(name: string)
    requires IndexOf(name, "(유)", 0).None? && IndexOf(name, "(주)", 0).None?
    ensures CleanName(name) == Trim(name)
  {
  }

  /** A row is kept when its name cell trims to something. */
  predicate HasName(row: Row) {
    Trim(row.nameCell) != ""
  }

  /** The entry a kept row produces: the cleaned name, the dates of the
      trimmed schedule cell, and cells 2 to 5 trimmed and copied verbatim. */
  function ScrapeRow(row: Row): (e: ScrapedIpo)
    ensures e.name == CleanName(Trim(row.nameCell))
    ensures (e.subStart, e.subEnd) == ParseDates(CellText(row, ScheduleColumn))
    ensures e.subStart.Some? <==> '~' in CellText(row, ScheduleColumn)
    ensures e.offerPrice == CellText(row, OfferPriceColumn) && e.bandPrice == CellText(row, BandPriceColumn)
    ensures e.competition == CellText(row, CompetitionColumn) && e.underwriter == CellText(row, UnderwriterColumn)
    ensures IsTrimmed(e.name) && IsTrimmed(e.offerPrice) && IsTrimmed(e.bandPrice)
    ensures IsTrimmed(e.competition) && IsTrimmed(e.underwriter)
  {
    var dates := ParseDates(CellText(row, ScheduleColumn));
    ScrapedIpo(
      CleanName(Trim(row.nameCell)),
      dates.0,
      dates.1,
      CellText(row, OfferPriceColumn),
      CellText(row, BandPriceColumn),
      CellText(row, CompetitionColumn),
      CellText(row, UnderwriterColumn))
  }

  /** The row loop of `scrapeIpoList`: walk the rows in order, skip those that
      `keep` rejects, and push the entry `entry` makes of each other one. */
  method CollectRows<T, U>(rows: seq<T>, keep: T -> bool, entry: T -> U) returns (list: seq<U>)
    ensures var ks := KeptIndices(rows, keep, |rows|);
      |list| == |ks| && forall k :: 0 <= k < |ks| ==> list[k] == entry(rows[ks[k]])
  {
    list := [];
    var i := 0;
    while i < |rows|
      invariant 0 <= i <= |rows|
      invariant |list| == |KeptIndices(rows, keep, i)|
      invariant forall k :: 0 <= k < |list| ==> list[k] == entry(rows[KeptIndices(rows, keep, i)[k]])
    {
      if keep(rows[i]) {
        list := list + [entry(rows[i])];
      }
      i := i + 1;
    }
  }

  /** `scrapeIpoList`, from the rows on: one entry per row whose name cell is
      not blank, in row order. A failure before the rows are read (fetch,
      decode) is rethrown, so no partial list is ever returned. */
  method ScrapeIpoList(page: Result<seq<Row>, CrawlError>) returns (r: Result<seq<ScrapedIpo>, CrawlError>)
    ensures page.Failure? ==> r == Failure(page.error)
    ensures page.Success? ==> r.Success? && |r.value| <= |page.value|
    ensures page.Success? ==>
      var ks := KeptIndices(page.value, HasName, |page.value|);
      |r.value| == |ks| && forall k :: 0 <= k < |ks| ==> r.value[k] == ScrapeRow(page.value[ks[k]])
  {
    if page.Failure? {
      return Failure(page.error);
    }
    var ipoList := CollectRows(page.value, HasName, ScrapeRow);
    return Success(ipoList);
  }
}
