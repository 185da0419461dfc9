/** The paged IPO list of the dashboard (client/src/components/dashboard/WeeklyList.tsx):
    the list sorted by the chosen option, cut into pages of ten, the status
    badge of each entry, and the page and sort state the controls update.
    Korean collation is an abstract rank on names. */
module WeeklyList {
  import opened Wrappers
  import opened Schema
  import opened Collections
  import TodayCard

  datatype SortOption = Latest | Oldest | Name

  const ItemsPerPage: nat := 10

  /** `new Date(x.subStart || 0).getTime()`: a missing date sorts as the epoch. */
  function SortKey(ipo: Ipo): int {
    ipo.subStart.GetOr(0)
  }

  /** "May precede" for each option: `latest` by date descending, `oldest`
      ascending, `name` by collation rank. */
  predicate Precedes(order: SortOption, collate: string -> int, a: Ipo, b: Ipo) {
    match order
    case Latest => SortKey(a) >= SortKey(b)
    case Oldest => SortKey(a) <= SortKey(b)
    case Name => collate(a.name) <= collate(b.name)
  }

  lemma PrecedesIsTotalPreorder(order: SortOption, collate: string -> int)
    ensures TotalPreorder((a: Ipo, b: Ipo) => Precedes(order, collate, a, b))
  {
  }

  /** `[...ipoList].sort(...)`: a reordering of the list by the option. */
  function Sorted(list: seq<Ipo>, order: SortOption, collate: string -> int): (r: seq<Ipo>)
    ensures multiset(r) == multiset(list) && |r| == |list|
    ensures SortedBy(r, (a: Ipo, b: Ipo) => Precedes(order, collate, a, b))
  {
    PrecedesIsTotalPreorder(order, collate);
    Sort(list, (a: Ipo, b: Ipo) => Precedes(order, collate, a, b))
  }

  /** `latest` puts later start dates first, `oldest` earlier ones first. */
  lemma SortDirections(list: seq<Ipo>, collate: string -> int, i: nat, j: nat)
    requires i < j < |list|
    ensures SortKey(Sorted(list, Latest, collate)[i]) >= SortKey(Sorted(list, Latest, collate)[j])
    ensures SortKey(Sorted(list, Oldest, collate)[i]) <= SortKey(Sorted(list, Oldest, collate)[j])
    ensures collate(Sorted(list, Name, collate)[i].name) <= collate(Sorted(list, Name, collate)[j].name)
  {
  }

  /** `Math.ceil(n / ITEMS_PER_PAGE)`. */
  function TotalPages(n: nat): (t: nat)
    ensures n == 0 <==> t == 0
    ensures t > 0 ==> (t - 1) * ItemsPerPage < n <= t * ItemsPerPage
  {
    (n + ItemsPerPage - 1) / ItemsPerPage
  }

  /** `Array.prototype.slice(start, end)`: negative bounds count from the end,
      and both are clamped to the list. */
  function ClampIndex(i: int, n: nat): (k: nat)
    ensures k <= n
    ensures 0 <= i <= n ==> k == i
  {
    if i < 0 then (if n + i < 0 then 0 else n + i) else if i > n then n else i
  }

  function JsSlice<T>(s: seq<T>, start: int, end: int): (r: seq<T>)
    ensures var a, b := ClampIndex(start, |s|), ClampIndex(end, |s|);
      r == if a < b then s[a..b] else []
  {
    var a, b := ClampIndex(start, |s|), ClampIndex(end, |s|);
    if a < b then s[a..b] else []
  }

  /** The memo: sorted list, page count and the page's entries; a missing or
      empty list gives nothing and no pages. */
  datatype Memo = Memo(sortedList: seq<Ipo>, totalPages: nat, paginatedList: seq<Ipo>)

  function ListView(ipoList: Option<seq<Ipo>>, order: SortOption, currentPage: int, collate: string -> int): (v: Memo)
    ensures ipoList.None? || ipoList.value == [] ==> v == Memo([], 0, [])
    ensures ipoList.Some? ==>
      && multiset(v.sortedList) == multiset(ipoList.value)
      && v.totalPages == TotalPages(|ipoList.value|)
    ensures ipoList.Some? && ipoList.value != [] ==> v.sortedList == Sorted(ipoList.value, order, collate)
  {
    if ipoList.None? || |ipoList.value| == 0 then Memo([], 0, [])
    else
      var sorted := Sorted(ipoList.value, order, collate);
      var startIndex := (currentPage - 1) * ItemsPerPage;
      Memo(sorted, TotalPages(|sorted|), JsSlice(sorted, startIndex, startIndex + ItemsPerPage))
  }

  /** Page `p` (from 1) shows exactly the entries `(p-1)*10 .. min(n, p*10)`
      of the sorted list, at most ten of them. */
  lemma PageContents(ipoList: seq<Ipo>, order: SortOption, p: nat, collate: string -> int)
    requires p >= 1
    ensures var v := ListView(Some(ipoList), order, p, collate);
      var n := |v.sortedList|;
      var lo := (p - 1) * ItemsPerPage;
      var hi := if p * ItemsPerPage < n then p * ItemsPerPage else n;
      && |v.paginatedList| <= ItemsPerPage
      && (lo < n ==> v.paginatedList == v.sortedList[lo..hi])
      && (lo >= n ==> v.paginatedList == [])
  {
    var v := ListView(Some(ipoList), order, p, collate);
    var lo := (p - 1) * ItemsPerPage;
    if ipoList != [] {
      var sorted := Sorted(ipoList, order, collate);
      assert v == Memo(sorted, TotalPages(|sorted|), JsSlice(sorted, lo, lo + ItemsPerPage));
      assert lo + ItemsPerPage == p * ItemsPerPage;
    }
  }

  /** Entry `k` of `n` falls on page `k / 10 + 1`, at offset `k % 10`. */
  lemma PageOf(k: nat, n: nat)
    requires k < n
    ensures var p := k / ItemsPerPage + 1;
      && 1 <= p <= TotalPages(n)
      && (p - 1) * ItemsPerPage <= k < (if p * ItemsPerPage < n then p * ItemsPerPage else n)
      && k == (p - 1) * ItemsPerPage + k % ItemsPerPage
  {
  }

  /** Entry `k` is item `k % 10` of the ten-entry slice that starts at its page. */
  lemma PageSlice<T>(s: seq<T>, k: nat)
    requires k < |s|
    ensures var lo := k / ItemsPerPage * ItemsPerPage;
      && k % ItemsPerPage < |JsSlice(s, lo, lo + ItemsPerPage)|
      && JsSlice(s, lo, lo + ItemsPerPage)[k % ItemsPerPage] == s[k]
  {
    var lo := k / ItemsPerPage * ItemsPerPage;
    assert k == lo + k % ItemsPerPage;
  }

  /** Every sorted entry is on exactly one page: entry `k` is item `k % 10` of
      page `k / 10 + 1`, which is a page the controls offer. */
  lemma EveryEntryOnItsPage(ipoList: seq<Ipo>, order: SortOption, k: nat, collate: string -> int)
    requires k < |ipoList|
    ensures var p := k / ItemsPerPage + 1;
      var v := ListView(Some(ipoList), order, p, collate);
      && 1 <= p <= v.totalPages
      && k % ItemsPerPage < |v.paginatedList|
      && v.paginatedList[k % ItemsPerPage] == v.sortedList[k]
  {
    var p := k / ItemsPerPage + 1;
    var v := ListView(Some(ipoList), order, p, collate);
    var lo := (p - 1) * ItemsPerPage;
    PageOf(k, |ipoList|);
    assert v.paginatedList == JsSlice(v.sortedList, lo, lo + ItemsPerPage);
    PageSlice(v.sortedList, k);
  }

  /** `totalPages > 1`: the page control is shown only when there is more than one page. */
  predicate ShowsPagination(totalPages: nat) {
    totalPages > 1
  }

  lemma PaginationShownIffMoreThanTen(ipoList: seq<Ipo>, order: SortOption, p: int, collate: string -> int)
    ensures ShowsPagination(ListView(Some(ipoList), order, p, collate).totalPages) <==> |ipoList| > ItemsPerPage
  {
  }

  // ------------------------------------------------------------- status

  datatype Status = Upcoming | Open | Closed

  /** The badge, as written: `OPEN` from the start instant to the `subEnd`
      instant, `CLOSED` after it, `UPCOMING` before the start or when a date
      is missing. */
  function StatusOfAsWritten(ipo: Ipo, today: int): (s: Status)
    ensures s == Open <==> ipo.subStart.Some? && ipo.subEnd.Some? && ipo.subStart.value <= today <= ipo.subEnd.value
    ensures s == Closed <==> ipo.subStart.Some? && ipo.subEnd.Some? && today > ipo.subEnd.value
    ensures ipo.subStart.None? || ipo.subEnd.None? ==> s == Upcoming
  {
    if ipo.subStart.Some? && ipo.subEnd.Some? then
      if ipo.subStart.value <= today <= ipo.subEnd.value then Open
      else if today > ipo.subEnd.value then Closed
      else Upcoming
    else Upcoming
  }

  /** The badge with the subscription open through the whole last day, as
      the dashboard's today card counts it. */
  function StatusOf(ipo: Ipo, today: int, offsetMs: int): (s: Status)
    ensures s == Open <==> TodayCard.OpenToday(today, offsetMs, ipo)
    ensures s == Closed <==>
      ipo.subStart.Some? && ipo.subEnd.Some? && today > TodayCard.EndOfDay(ipo.subEnd.value, offsetMs)
    ensures ipo.subStart.None? || ipo.subEnd.None? ==> s == Upcoming
  {
    if ipo.subStart.Some? && ipo.subEnd.Some? then
      var end := TodayCard.EndOfDay(ipo.subEnd.value, offsetMs);
      if ipo.subStart.value <= today <= end then Open
      else if today > end then Closed
      else Upcoming
    else Upcoming
  }

  /** Both badges agree except on the last day after the `subEnd` instant. */
  lemma StatusDiffersOnlyOnLastDay(ipo: Ipo, today: int, offsetMs: int)
    requires StatusOfAsWritten(ipo, today) != StatusOf(ipo, today, offsetMs)
    ensures ipo.subStart.Some? && ipo.subEnd.Some?
    ensures ipo.subEnd.value < today <= TodayCard.EndOfDay(ipo.subEnd.value, offsetMs)
    ensures (today + offsetMs) / DayMs == (ipo.subEnd.value + offsetMs) / DayMs
  {
    var e := ipo.subEnd.value;
    var end := TodayCard.EndOfDay(e, offsetMs);
    var q := (e + offsetMs) / DayMs;
    assert end + offsetMs == q * DayMs + (DayMs - 1);
    assert today + offsetMs == q * DayMs + (today - e + (e + offsetMs) % DayMs);
    TodayCard.DivModUnique(today + offsetMs, q, today - e + (e + offsetMs) % DayMs);
  }

  /** An IPO whose subscription ends on day 1 (stored as midnight) shows as
      closed during day 1 itself, while the today card shows it as open. */
  lemma LastDayShownClosed()
    ensures var ipo := Ipo("", "", Some(0), Some(DayMs), None, None, None, None, None, None, None, None, None, None);
      && StatusOfAsWritten(ipo, DayMs + 1) == Closed
      && TodayCard.OpenToday(DayMs + 1, 0, ipo)
      && StatusOf(ipo, DayMs + 1, 0) == Open
  {
  }

  // ---------------------------------------------------------- page state

  /** `currentPage > 1 ? currentPage - 1 : currentPage`. */
  function PreviousPage(page: int): (p: int)
    ensures page > 1 ==> p == page - 1
    ensures page <= 1 ==> p == page
  {
    if page > 1 then page - 1 else page
  }

  /** `currentPage < totalPages ? currentPage + 1 : currentPage`. */
  function NextPage(page: int, totalPages: nat): (p: int)
    ensures page < totalPages ==> p == page + 1
    ensures page >= totalPages ==> p == page
  {
    if page < totalPages then page + 1 else page
  }

  /** Previous and next keep a page in [1, totalPages], and stop at the ends. */
  lemma StepsStayInRange(page: int, totalPages: nat)
    requires 1 <= page <= totalPages
    ensures 1 <= PreviousPage(page) <= totalPages
    ensures 1 <= NextPage(page, totalPages) <= totalPages
    ensures PreviousPage(1) == 1 && NextPage(totalPages, totalPages) == totalPages
    ensures PreviousPage(NextPage(page, totalPages)) == page || page == totalPages
  {
  }

  /** The component's state: the page shown and the sort option. */
  class ListState {
    var currentPage: int
    var sortBy: SortOption

    constructor()
      ensures currentPage == 1 && sortBy == Latest
    {
      currentPage := 1;
      sortBy := Latest;
    }

    /** `handleSortChange`: a new sort starts again on page 1. */
    method HandleSortChange(value: SortOption)
      modifies this
      ensures sortBy == value && currentPage == 1
    {
      sortBy := value;
      currentPage := 1;
    }

    /** The "previous" control. */
    method Previous()
      modifies this
      ensures currentPage == PreviousPage(old(currentPage)) && sortBy == old(sortBy)
    {
      if currentPage > 1 {
        currentPage := currentPage - 1;
      }
    }

    /** The "next" control, with the page count of the current view. */
    method Next(totalPages: nat)
      modifies this
      ensures currentPage == NextPage(old(currentPage), totalPages) && sortBy == old(sortBy)
    {
      if currentPage < totalPages {
        currentPage := currentPage + 1;
      }
    }

    /** A numbered page link: the links are 1 .. totalPages. */
    method SelectPage(page: nat, totalPages: nat)
      requires 1 <= page <= totalPages
      modifies this
      ensures currentPage == page && sortBy == old(sortBy)
    {
      currentPage := page;
    }
  }
}
