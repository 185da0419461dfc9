/** The "today" card of the dashboard (client/src/components/dashboard/TodayCard.tsx):
    the first IPO whose subscription is open right now, counting the whole
    last day, and the fallbacks it is displayed with. `now` and the
    browser's fixed offset from UTC are inputs. */
module TodayCard {
  import opened Wrappers
  import opened Schema
  import opened Collections

  /** `end.setHours(23, 59, 59, 999)`: the last millisecond of the local day
      containing `t`, for a zone `offsetMs` ahead of UTC. */
  function EndOfDay(t: int, offsetMs: int): (r: int)
    ensures t <= r < t + DayMs
    ensures (r + offsetMs) % DayMs == DayMs - 1
    ensures (r + offsetMs) / DayMs == (t + offsetMs) / DayMs
  {
    var local := t + offsetMs;
    var q, m := local / DayMs, local % DayMs;
    assert local == q * DayMs + m;
    var r := t - m + DayMs - 1;
    assert r + offsetMs == q * DayMs + (DayMs - 1);
    DivModUnique(r + offsetMs, q, DayMs - 1);
    r
  }

  /** Division by a day is determined by any quotient and remainder in range. */
  lemma DivModUnique(x: int, q: int, m: int)
    requires 0 <= m < DayMs && x == q * DayMs + m
    ensures x / DayMs == q && x % DayMs == m
  {
  }

  /** The selection predicate: both dates present, and
      start <= now <= the end of the last day. */
  predicate OpenToday(now: int, offsetMs: int, ipo: Ipo) {
    && ipo.subStart.Some? && ipo.subEnd.Some?
    && ipo.subStart.value <= now <= EndOfDay(ipo.subEnd.value, offsetMs)
  }

  /** `ipoList?.find(...)`: nothing for a missing list. */
  function TodayHighlight(ipoList: Option<seq<Ipo>>, now: int, offsetMs: int): (r: Option<Ipo>)
    ensures ipoList.None? ==> r.None?
    ensures r.None? && ipoList.Some? ==> forall k :: 0 <= k < |ipoList.value| ==> !OpenToday(now, offsetMs, ipoList.value[k])
    ensures r.Some? ==>
      && ipoList.Some?
      && OpenToday(now, offsetMs, r.value)
      && exists i :: 0 <= i < |ipoList.value| && ipoList.value[i] == r.value
           && forall j :: 0 <= j < i ==> !OpenToday(now, offsetMs, ipoList.value[j])
  {
    match ipoList
    case None => None
    case Some(list) =>
      match FindFirst(list, (x: Ipo) => OpenToday(now, offsetMs, x), 0)
      case None => None
      case Some(i) => Some(list[i])
  }

  /** An item without either date is never selected, whatever list it is in;
      a list of such items has no highlight. */
  lemma UndatedNeverHighlighted(list: seq<Ipo>, ipo: Ipo, now: int, offsetMs: int)
    requires ipo.subStart.None? || ipo.subEnd.None?
    ensures TodayHighlight(Some(list), now, offsetMs) != Some(ipo)
    ensures (forall k :: 0 <= k < |list| ==> list[k].subStart.None? || list[k].subEnd.None?) ==>
      TodayHighlight(Some(list), now, offsetMs).None?
  {
  }

  /** The whole local calendar day of `subEnd` is inside the window, and
      nothing of the day after. */
  lemma LastDayIncluded(start: int, end: int, offsetMs: int, now: int)
    requires start <= end
    ensures var ipo := Ipo("", "", Some(start), Some(end), None, None, None, None, None, None, None, None, None, None);
      && (now >= end && (now + offsetMs) / DayMs == (end + offsetMs) / DayMs ==> OpenToday(now, offsetMs, ipo))
      && ((now + offsetMs) / DayMs > (end + offsetMs) / DayMs ==> !OpenToday(now, offsetMs, ipo))
  {
    var e := EndOfDay(end, offsetMs);
    if (now + offsetMs) / DayMs == (end + offsetMs) / DayMs {
      var q := (end + offsetMs) / DayMs;
      assert now + offsetMs == q * DayMs + (now + offsetMs) % DayMs;
      assert e + offsetMs == q * DayMs + (DayMs - 1);
    }
    if (now + offsetMs) / DayMs > (end + offsetMs) / DayMs {
      var q := (end + offsetMs) / DayMs;
      var q' := (now + offsetMs) / DayMs;
      assert now + offsetMs == q' * DayMs + (now + offsetMs) % DayMs;
      assert e + offsetMs == q * DayMs + (DayMs - 1);
      assert q' * DayMs >= q * DayMs + DayMs;
    }
  }

  /** `todayHighlight.competition || '-'`. */
  function CompetitionText(competition: Option<string>): (s: string)
    ensures competition.None? || competition.value == "" ==> s == "-"
    ensures competition.Some? && competition.value != "" ==> s == competition.value
  {
    if competition.Some? && competition.value != "" then competition.value else "-"
  }

  /** The offer price as shown: a won amount, or `미정` (undecided) when it
      is missing or 0. */
  datatype PriceText = Undecided | Won(amount: int)

  function OfferText(offerPrice: Option<int>): (p: PriceText)
    ensures p.Undecided? <==> offerPrice.None? || offerPrice.value == 0
    ensures p.Won? ==> p.amount == offerPrice.value
  {
    if offerPrice.Some? && offerPrice.value != 0 then Won(offerPrice.value) else Undecided
  }
}
