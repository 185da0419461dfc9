/** The scheduled jobs (server/src/scheduler/scheduler.service.ts): the daily
    crawl, whose failures are only logged, and the weekly report, which picks
    the IPOs of the coming seven days and mails every active, verified
    subscriber. The tables are sequences in storage order; `where` clauses
    are filters and `orderBy` clauses sorts. Mail delivery is a parameter. */
module Scheduler {
  import opened Wrappers
  import opened Schema
  import opened Collections
  import Crawler

  const WeekMs: int := 7 * DayMs

  /** `nextWeek.setDate(today.getDate() + 7)`: seven calendar days later. In
      the Asia/Seoul zone there is no daylight-saving shift, so that is seven
      days of milliseconds. */
  function NextWeek(today: int): (t: int)
    ensures t - today == WeekMs
  {
    today + WeekMs
  }

  /** `{ gte: today, lt: nextWeek }` on a nullable date column. */
  predicate InWindow(t: Option<int>, today: int) {
    t.Some? && today <= t.value < NextWeek(today)
  }

  predicate InSubscriptionWeek(today: int, ipo: Ipo) {
    InWindow(ipo.subStart, today) || InWindow(ipo.subEnd, today)
  }

  predicate ListedThisWeek(today: int, ipo: Ipo) {
    InWindow(ipo.listDate, today)
  }

  /** `orderBy: asc` on a nullable date column: dates ascending, nulls after
      every date (the PostgreSQL default). */
  predicate AscNullsLast(a: Option<int>, b: Option<int>) {
    b.None? || (a.Some? && a.value <= b.value)
  }

  predicate BySubStart(a: Ipo, b: Ipo) {
    AscNullsLast(a.subStart, b.subStart)
  }

  predicate ByListDate(a: Ipo, b: Ipo) {
    AscNullsLast(a.listDate, b.listDate)
  }

  lemma AscNullsLastOrders()
    ensures TotalPreorder(BySubStart) && TotalPreorder(ByListDate)
  {
  }

  /** The subscription query: every IPO whose start or end date falls in
      [today, today + 7 days), by start date. */
  function UpcomingIpos(ipos: seq<Ipo>, today: int): (r: seq<Ipo>)
    ensures forall x :: x in r <==> x in ipos && InSubscriptionWeek(today, x)
    ensures multiset(r) == multiset(Filter(ipos, (x: Ipo) => InSubscriptionWeek(today, x)))
    ensures SortedBy(r, BySubStart)
  {
    AscNullsLastOrders();
    SortedFilter(ipos, (x: Ipo) => InSubscriptionWeek(today, x), BySubStart)
  }

  /** The listing query: every IPO listed in [today, today + 7 days), by listing date. */
  function UpcomingListings(ipos: seq<Ipo>, today: int): (r: seq<Ipo>)
    ensures forall x :: x in r <==> x in ipos && ListedThisWeek(today, x)
    ensures multiset(r) == multiset(Filter(ipos, (x: Ipo) => ListedThisWeek(today, x)))
    ensures SortedBy(r, ByListDate)
  {
    AscNullsLastOrders();
    SortedFilter(ipos, (x: Ipo) => ListedThisWeek(today, x), ByListDate)
  }

  /** The window includes its first instant and excludes the instant seven days later. */
  lemma WindowIsHalfOpen(today: int)
    ensures InWindow(Some(today), today)
    ensures !InWindow(Some(NextWeek(today)), today)
    ensures !InWindow(Some(today - 1), today)
    ensures InWindow(Some(NextWeek(today) - 1), today)
  {
  }

  /** `where: { isActive: true, isVerified: true }`. */
  predicate IsRecipient(s: Subscriber) {
    s.isActive && s.isVerified
  }

  /** The recipients are exactly the active, verified subscribers, in table order. */
  lemma RecipientsAreActiveVerified(subscribers: seq<Subscriber>)
    ensures var rs := Filter(subscribers, IsRecipient);
      && (forall x :: x in rs <==> x in subscribers && x.isActive && x.isVerified)
      && (forall a, b :: 0 <= a < b < |rs| ==>
            KeptIndices(subscribers, IsRecipient, |subscribers|)[a] < KeptIndices(subscribers, IsRecipient, |subscribers|)[b])
  {
  }

  const DefaultApiUrl: string := "http://localhost:3000"

  /** `process.env.API_URL || 'http://localhost:3000'`. */
  function ApiUrl(env: Option<string>): (url: string)
    ensures env.None? || env.value == "" ==> url == DefaultApiUrl
    ensures env.Some? && env.value != "" ==> url == env.value
  {
    if env.Some? && env.value != "" then env.value else DefaultApiUrl
  }

  /** A nullable token interpolated into a template literal. */
  function TokenText(token: Option<string>): string {
    match token
    case None => "null"
    case Some(t) => t
  }

  function UnsubscribeLink(apiUrl: string, token: Option<string>): (link: string)
    ensures link == apiUrl + "/subscribers/unsubscribe?token=" + TokenText(token)
  {
    apiUrl + "/subscribers/unsubscribe?token=" + TokenText(token)
  }

  /** What the report mail says, without its HTML. */
  datatype Report = Report(from: int, until: int, subscriptions: seq<Ipo>, listings: seq<Ipo>)

  datatype Mail = Mail(to: string, report: Report, unsubscribeLink: string)

  /** The weekly run: skipped when there is nothing to report, otherwise the
      mails attempted, one per recipient in order, and those delivered. */
  datatype WeeklyRun = Skipped | Distributed(attempted: seq<Mail>, delivered: seq<Mail>)

  function WeeklyReport(ipos: seq<Ipo>, today: int): Report {
    Report(today, NextWeek(today), UpcomingIpos(ipos, today), UpcomingListings(ipos, today))
  }

  /** The mail one subscriber gets: the shared report and a link with their own token. */
  function MailFor(report: Report, apiUrl: string, sub: Subscriber): Mail {
    Mail(sub.email, report, UnsubscribeLink(apiUrl, sub.unsubscribeToken))
  }

  /** A mail is delivered unless its address is one whose send fails. */
  function DeliveredTo(failing: set<string>): Mail -> bool {
    (m: Mail) => m.to !in failing
  }

  /** What a weekly run over `subscribers` amounts to: skipped exactly when
      both queries are empty, and otherwise one mail per active, verified
      subscriber, in order, each with the shared report and that
      subscriber's own link, of which those whose send does not fail are
      delivered. */
  predicate WeeklyOutcome(run: WeeklyRun, ipos: seq<Ipo>, subscribers: seq<Subscriber>, today: int,
                          apiUrlEnv: Option<string>, failing: set<string>)
  {
    && (run.Skipped? <==> UpcomingIpos(ipos, today) == [] && UpcomingListings(ipos, today) == [])
    && (run.Distributed? ==>
          var recipients := Filter(subscribers, IsRecipient);
          var report := WeeklyReport(ipos, today);
          && |run.attempted| == |recipients|
          && (forall k :: 0 <= k < |recipients| ==> run.attempted[k] == MailFor(report, ApiUrl(apiUrlEnv), recipients[k]))
          && run.delivered == Filter(run.attempted, DeliveredTo(failing)))
  }

  /** `sendWeeklyReportCron`. Returns before reading subscribers when neither
      query finds anything. Otherwise every recipient gets one mail with the
      shared report and their own unsubscribe link; a send that fails (the
      addresses in `failing`) is caught and the loop goes on with the rest. */
  method SendWeeklyReport(ipos: seq<Ipo>, subscribers: seq<Subscriber>, today: int,
                          apiUrlEnv: Option<string>, failing: set<string>) returns (run: WeeklyRun)
    ensures run.Skipped? <==> UpcomingIpos(ipos, today) == [] && UpcomingListings(ipos, today) == []
    ensures WeeklyOutcome(run, ipos, subscribers, today, apiUrlEnv, failing)
  {
    var upcomingIpos := UpcomingIpos(ipos, today);
    var upcomingListings := UpcomingListings(ipos, today);
    if |upcomingIpos| == 0 && |upcomingListings| == 0 {
      return Skipped;
    }
    var recipients := Filter(subscribers, IsRecipient);
    var report := Report(today, NextWeek(today), upcomingIpos, upcomingListings);
    var apiUrl := ApiUrl(apiUrlEnv);
    var attempted, delivered := SendAll(recipients, (sub: Subscriber) => MailFor(report, apiUrl, sub),
                                        DeliveredTo(failing));
    return Distributed(attempted, delivered);
  }

  /** The `for (const sub of subscribers)` loop: one mail per recipient, in
      order; a send that fails is caught and the loop goes on. */
  method SendAll<T, M(!new)>(recipients: seq<T>, mailFor: T -> M, delivers: M -> bool)
    returns (attempted: seq<M>, delivered: seq<M>)
    ensures |attempted| == |recipients|
    ensures forall k :: 0 <= k < |recipients| ==> attempted[k] == mailFor(recipients[k])
    ensures delivered == Filter(attempted, delivers)
  {
    attempted, delivered := [], [];
    var i := 0;
    while i < |recipients|
      invariant 0 <= i <= |recipients|
      invariant |attempted| == i
      invariant forall k :: 0 <= k < i ==> attempted[k] == mailFor(recipients[k])
      invariant delivered == Filter(attempted, delivers)
    {
      var mail := mailFor(recipients[i]);
      FilterAppendOne(attempted, mail, delivers);
      attempted := attempted + [mail];
      if delivers(mail) {
        delivered := delivered + [mail];
      }
      i := i + 1;
    }
  }

  /** What the daily job logs. The job never throws. */
  datatype DailyLog = CrawlCompleted(processed: Option<nat>) | CrawlFailed(error: Crawler.CrawlError)

  /** The count the completion log line prints, as written: `result.count` of
      the array `scrapeIpoList` returns, which has no `count` property. */
  function LoggedCountAsWritten(result: seq<Crawler.ScrapedIpo>): Option<nat> {
    None
  }

  /** The count the log line means: the number of entries crawled. */
  function LoggedCount(result: seq<Crawler.ScrapedIpo>): (n: Option<nat>)
    ensures n.Some? && n.value == |result|
  {
    Some(|result|)
  }

  /** The logged count is `undefined` for every crawl, including ones that found entries. */
  lemma LoggedCountIsUndefined(result: seq<Crawler.ScrapedIpo>)
    ensures LoggedCountAsWritten(result) != LoggedCount(result)
  {
  }

  /** `runDailyCrawling`: a failed crawl is logged and swallowed. A successful
      one is logged with `result.count`, which is `undefined` whatever the
      crawl found; `LoggedCount` is the count the line means. */
  method RunDailyCrawling(page: Result<seq<Crawler.Row>, Crawler.CrawlError>) returns (log: DailyLog)
    ensures log.CrawlFailed? <==> page.Failure?
    ensures page.Failure? ==> log == CrawlFailed(page.error)
    ensures page.Success? ==> log == CrawlCompleted(None)
  {
    var result := Crawler.ScrapeIpoList(page);
    match result
    case Failure(e) => log := CrawlFailed(e);
    case Success(list) => log := CrawlCompleted(LoggedCountAsWritten(list));
  }
}
