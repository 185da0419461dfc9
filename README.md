# gongmoju-info, modelled in Dafny

gongmoju-info (공모주 알리미) tracks Korean IPO subscriptions. A NestJS
server scrapes the subscription schedule of 38.co.kr and keeps a table of
email subscribers who verify their address with a six-digit code. Every
Monday it mails them the IPOs whose subscription or listing falls in the
coming week. A Next.js dashboard lists the IPOs in pages of ten and
highlights the one open today. It also scores each IPO from its demand,
lockup, supply and over-the-counter figures, and has a subscription form.

This project models that core. Each source file is one module:

| module | file | source |
|---|---|---|
| `Crawler` | crawler.dfy | server/src/crawler/crawler.service.ts |
| `Scheduler` | scheduler.dfy | server/src/scheduler/scheduler.service.ts |
| `SubscriberController` | subscriber_controller.dfy | server/src/subscriber/subscriber.controller.ts |
| `ExceptionsFilter` | exceptions_filter.dfy | server/src/common/filters/all-exceptions.filter.ts |
| `IpoCalculator` | ipo_calculator.dfy | client/src/lib/ipo-calculator.ts |
| `WeeklyList` | weekly_list.dfy | client/src/components/dashboard/WeeklyList.tsx |
| `TodayCard` | today_card.dfy | client/src/components/dashboard/TodayCard.tsx |
| `EmailSubscription` | email_subscription.dfy | client/src/components/dashboard/EmailSubscription.tsx |
| `ApiServer` | api_server.dfy | client/src/lib/api.server.ts |

They rest on a few support modules:

- `Wrappers` holds `Option` and `Result`.
- `Text` holds the JavaScript string operations the source uses: `trim`, `indexOf`, `replace` with a string or a global character class, `split` and `startsWith`.
- `JsNumbers` holds `parseInt`, `parseFloat` on digit-and-dot runs, and `String(n)`.
- `Collections` holds order-preserving filtering, `findIndex`, and a stable insertion sort over a total preorder. These stand for `filter`, `find`, `sort` and the database's `where`/`orderBy`.
- `Schema` holds the `Ipo` and `Subscriber` records.

How the model is built:

- Dates are integer millisecond timestamps.
- The clock, the browser's UTC offset, randomness, the fresh uuid and whether a mail send fails are all inputs.
- Pure code becomes functions with contracts, and lemmas relate them.
- Code that mutates state becomes classes. The subscriber table is a `map` keyed by email. WeeklyList's page and sort state and the subscription form's fields are class fields.
- The handlers are methods proved against specification functions. Their invariants are validity predicates: email keys and unique tokens for the table, and "loading iff a handler is waiting" for the form.
- The crawler's row loop and the weekly report's send loop are `while` loops with invariants.

The crawler is modelled as its TypeScript source is written. That source scrapes only the list page. It splits the schedule cell on `~` and trims the two parts, and it returns the array of entries. The fuller pipeline is not in that file and is not modelled: detail pages, upserts keyed by name, year inference for date ranges, and a `{count, message}` result. Only the compiled declaration file (server/dist/src/crawler/crawler.service.d.ts) describes it.

## Model

| member | source | states |
|---|---|---|
| Text.Trim | server/src/crawler/crawler.service.ts:37 | `String.prototype.trim`: the leading whitespace is dropped, then exactly the trailing whitespace. The result has no ECMAScript whitespace at either end. |
| Text.TrimIdempotent | server/src/crawler/crawler.service.ts:55 | Trimming twice is trimming once. |
| Text.TrimEmptyIff | server/src/crawler/crawler.service.ts:37-38 | A cell trims to the empty string exactly when it is all whitespace. This is the condition for a skipped row. |
| Text.ReplaceFirst | server/src/crawler/crawler.service.ts:55 | `replace` with a string pattern changes only the first occurrence. With no occurrence the text is unchanged. |
| Text.RemoveChars | client/src/lib/ipo-calculator.ts:38 | `replace(/[,]/g, '')`: no removed character is left, every character left comes from the input, and the result is no longer than the input. |
| Text.RemoveCharsCounts | client/src/lib/ipo-calculator.ts:38 | Every character that is not removed keeps its number of occurrences. |
| Text.RemoveCharsAppend | client/src/lib/ipo-calculator.ts:38 | A global replace works piecewise: removing from a concatenation is removing from each part. |
| Text.SplitFirstTwo | server/src/crawler/crawler.service.ts:78-80 | `split('~')[0]` and `[1]`: the first part is the text before the first `~`, the second the text from there up to the next `~` or the end; neither part holds a `~`. |
| JsNumbers.DecimalString | server/src/subscriber/subscriber.controller.ts:26 | `toString()` of a natural number: decimal digits whose value is the number, with no leading zero. |
| JsNumbers.ParseIntDecimalString | client/src/lib/ipo-calculator.ts:75 | `parseInt` reads back what `toString` wrote. |
| JsNumbers.ParseIntDigits | client/src/lib/ipo-calculator.ts:75 | `parseInt` of a non-empty digit string is its decimal value. |
| JsNumbers.ParseInt | client/src/lib/ipo-calculator.ts:91 | `parseInt(s, 10)` is NaN (`None`) exactly when no digit follows the leading whitespace and optional sign. Otherwise it is the value of the longest digit run there, negated after a `-`. |
| JsNumbers.DecimalRunValue | client/src/lib/ipo-calculator.ts:38 | `parseFloat` of a digit-and-dot run is NaN exactly when the run starts neither with a digit nor with `.` and a digit. Otherwise its value lies in [whole part, whole part + 1). |
| Collections.Filter | server/src/scheduler/scheduler.service.ts:63-65 | A `where` filter keeps exactly the matching elements, in their order. |
| Collections.Sort | server/src/scheduler/scheduler.service.ts:47-54 | `orderBy`/`sort` output is a permutation of the input, ordered by the comparator. |
| Collections.SortedFilter | server/src/scheduler/scheduler.service.ts:40-55 | A `where` then `orderBy` query returns exactly the matching rows, each as often as the filter keeps it, in comparator order. |
| Collections.FindFirst | client/src/components/dashboard/TodayCard.tsx:18 | `find` returns the first matching index. It returns none exactly when nothing matches. |
| Crawler.CellText | server/src/crawler/crawler.service.ts:45-49 | Each cell's text is trimmed. A missing cell gives the empty string. |
| Crawler.ParseDates | server/src/crawler/crawler.service.ts:74-84 | Without `~` there are no dates. Otherwise the start is the trimmed text before the first `~` and the end is the trimmed text up to the next `~`. Neither holds a `~`. |
| Crawler.CleanName | server/src/crawler/crawler.service.ts:55 | The name with the first `(유)` and then the first `(주)` removed, trimmed. |
| Crawler.CleanNameWithoutTokens | server/src/crawler/crawler.service.ts:55 | A name without either token is only trimmed. |
| Crawler.ScrapeRow | server/src/crawler/crawler.service.ts:37-61 | The entry's name is the cleaned trimmed name cell. Its dates are `parseDates` of the trimmed schedule cell, with a start exactly when that cell holds a `~`. Cells 2 to 5 are copied trimmed as offer price, band price, competition and underwriter. |
| Crawler.CollectRows | server/src/crawler/crawler.service.ts:35-63 | The row loop pushes one entry per kept row, in row order, and nothing else. |
| Crawler.ScrapeIpoList | server/src/crawler/crawler.service.ts:11-72 | A fetch or decode failure is rethrown with no partial list. Otherwise entry k is the scraped k-th row whose name cell is not blank. |
| IpoCalculator.ExtractRate | client/src/lib/ipo-calculator.ts:36-38 | There is no rate when the text has no digit, comma or dot. Otherwise the rate is `parseFloat` of the first `[\d,.]+` run with its commas removed, and it is never negative. |
| IpoCalculator.ExtractRateOfDigits | client/src/lib/ipo-calculator.ts:36-38 | A field that is a plain decimal number reads as that number. |
| IpoCalculator.ExtractRateDropsComma | client/src/lib/ipo-calculator.ts:36-38 | Digit groups joined by a thousands comma, as in `1,234`, read as the number without the comma. |
| IpoCalculator.ExtractRateOfDecimalString | client/src/lib/ipo-calculator.ts:36-38 | Any natural number written out reads back as itself. |
| IpoCalculator.FieldRate | client/src/lib/ipo-calculator.ts:35 | An absent or empty field yields no rate. |
| IpoCalculator.CompetitionScore | client/src/lib/ipo-calculator.ts:35-46 | The competition score is in [0, 5]. It is 0 when no rate is found, and otherwise the points of the rate. |
| IpoCalculator.CompetitionBuckets | client/src/lib/ipo-calculator.ts:39-44 | The points are 5, 4, 3, 2, 1 or 0 exactly on the rate bands ≥500, [450,500), [400,450), [350,400), [300,350) and below 300. |
| IpoCalculator.CompetitionPointsMonotone | client/src/lib/ipo-calculator.ts:39-44 | A higher competition rate never scores lower. |
| IpoCalculator.LockupScore | client/src/lib/ipo-calculator.ts:50-61 | The lockup score is one of 0, 2, 4, 6, 8, 10. It is 0 when no rate is found. |
| IpoCalculator.LockupBuckets | client/src/lib/ipo-calculator.ts:54-59 | The points are 10, 8, 6, 4, 2 or 0 exactly on the bands ≥30, [20,30), [15,20), [10,15), [5,10) and below 5. |
| IpoCalculator.LockupPointsMonotone | client/src/lib/ipo-calculator.ts:54-59 | A higher lockup rate never scores lower. |
| IpoCalculator.SupplyMatchFrom | client/src/lib/ipo-calculator.ts:73 | `/(\d+)억/` matches at the leftmost position where a digit run is followed by `억`. It fails only when no position matches. |
| IpoCalculator.ExtractSupply | client/src/lib/ipo-calculator.ts:73-75 | There is no supply value exactly when no digit run is followed by `억`. Otherwise the value is `parseInt` of the digits captured by the leftmost match, read as a decimal number. |
| IpoCalculator.ExtractSupplyOfLeadingAmount | client/src/lib/ipo-calculator.ts:73-75 | A text that starts with digits and then `억` yields those digits' value, whatever follows. |
| IpoCalculator.SupplyScore | client/src/lib/ipo-calculator.ts:72-83 | The supply score is one of 0, 1, 2, 4, 6, 10. It is 0 for an absent field or no match, and otherwise the points of the matched number of 억. |
| IpoCalculator.SupplyBuckets | client/src/lib/ipo-calculator.ts:76-81 | The points are 10, 6, 4, 2, 1 or 0 exactly on ≤200, (200,500], (500,1000], (1000,2000], (2000,3000] and above 3000. |
| IpoCalculator.SupplyPointsAntitone | client/src/lib/ipo-calculator.ts:76-81 | A larger circulating supply never scores higher. |
| IpoCalculator.OtcScore | client/src/lib/ipo-calculator.ts:90-102 | The OTC score is one of -3, 0, 3, 6. It is nonzero only when both prices are present, the offer is positive and the OTC price parses. |
| IpoCalculator.OtcPointsIntegerRule | client/src/lib/ipo-calculator.ts:95-100 | The premium bands are exact integer comparisons: 100·(otc−offer) ≥ 160·offer gives 6; ≥ 100·offer gives 3; > 50·offer gives 0; otherwise -3. |
| IpoCalculator.PremiumOfFiftyPenalised | client/src/lib/ipo-calculator.ts:99-100 | A premium of exactly +50% is penalised with -3. |
| IpoCalculator.BandsPartitionTotals | client/src/lib/ipo-calculator.ts:118-143 | Every total falls in exactly one grade band: ≥21, 16–20, 11–15, 6–10, ≤5. |
| IpoCalculator.GradeNamesBand | client/src/lib/ipo-calculator.ts:119-139 | The five grade names are distinct, so the grade identifies the band. |
| IpoCalculator.CalculateIpoScore | client/src/lib/ipo-calculator.ts:26-159 | The details are the five sub-scores, with the listing score 0. The total is their sum and lies in [-3, 31]. Grade, description and both classes are those of the total's band. |
| IpoCalculator.GradeDependsOnlyOnTotal | client/src/lib/ipo-calculator.ts:118-143 | Two IPOs with the same total get the same grade, description and colours. |
| Scheduler.NextWeek | server/src/scheduler/scheduler.service.ts:36-37 | The window's end is exactly seven days after its start. |
| Scheduler.WindowIsHalfOpen | server/src/scheduler/scheduler.service.ts:43-52 | The window includes `today` and excludes `today + 7 days`. |
| Scheduler.UpcomingIpos | server/src/scheduler/scheduler.service.ts:40-48 | Exactly the IPOs whose start or end date is in the window, as a permutation of the filtered table sorted by start date with nulls last. |
| Scheduler.UpcomingListings | server/src/scheduler/scheduler.service.ts:50-55 | Exactly the IPOs listed in the window, sorted by listing date. |
| Scheduler.ApiUrl | server/src/scheduler/scheduler.service.ts:105 | An unset or empty `API_URL` gives `http://localhost:3000`. |
| Scheduler.UnsubscribeLink | server/src/scheduler/scheduler.service.ts:110 | The link is the API URL + `/subscribers/unsubscribe?token=` + the subscriber's own token. |
| Scheduler.SendWeeklyReport | server/src/scheduler/scheduler.service.ts:31-129 | The run is skipped exactly when both queries are empty. Otherwise the k-th attempted mail goes to the k-th active verified subscriber, with the shared report and their own link. The delivered mails are the attempted ones minus the failed sends. |
| Scheduler.SendAll | server/src/scheduler/scheduler.service.ts:107-126 | The send loop makes one attempt per recipient, in order. A failed send is caught, so the delivered mails are the attempted ones whose send succeeds. |
| Scheduler.RecipientsAreActiveVerified | server/src/scheduler/scheduler.service.ts:63-65 | The recipients are exactly the active, verified subscribers, in table order. |
| Scheduler.LoggedCount | server/src/scheduler/scheduler.service.ts:23 | The intended count is the number of crawled entries. |
| Scheduler.LoggedCountIsUndefined | server/src/scheduler/scheduler.service.ts:22-23 | The count the code logs differs from the number of entries for every crawl. It is always undefined. |
| Scheduler.RunDailyCrawling | server/src/scheduler/scheduler.service.ts:19-27 | A crawl failure is logged and swallowed. A success is logged with `result.count`, which is undefined (`None`) for every crawl. |
| SubscriberController.NewCode | server/src/subscriber/subscriber.controller.ts:26 | The code is six decimal digits whose value is 100000 + rand, in [100000, 999999]. |
| SubscriberController.CodeExpiry | server/src/subscriber/subscriber.controller.ts:27 | The code expires 600000 ms after `now`. |
| SubscriberController.FinalToken | server/src/subscriber/subscriber.controller.ts:32-33 | A stored non-empty token is kept. Otherwise the fresh uuid is used. |
| SubscriberController.RequestStep | server/src/subscriber/subscriber.controller.ts:22-52 | If the token is held by another row, the request fails and nothing changes. Otherwise the row for the email is upserted, and a failing mail errors after the upsert. |
| SubscriberController.RequestUpsertsByEmail | server/src/subscriber/subscriber.controller.ts:35-45 | A request keeps the table valid and changes only the row for its email, adding it if missing. That row holds the new code, its expiry and a token. |
| SubscriberController.RequestKeepsToken | server/src/subscriber/subscriber.controller.ts:32-33 | Re-requesting keeps the existing token and can never hit a token conflict. |
| SubscriberController.RequestKeepsFlags | server/src/subscriber/subscriber.controller.ts:37-44 | An update leaves `isActive` and `isVerified` alone. A new row starts active and unverified. |
| SubscriberController.VerifyStep | server/src/subscriber/subscriber.controller.ts:58-87 | The checks run in order: unknown email, code expired strictly before now, code mismatch. A failure changes nothing. Success sets `isVerified` and clears the code and expiry. |
| SubscriberController.VerifyTwiceMismatches | server/src/subscriber/subscriber.controller.ts:75-83 | Once verified, verifying again with the same code fails as a mismatch. |
| SubscriberController.VerifyKeepsOthers | server/src/subscriber/subscriber.controller.ts:80-83 | Verification keeps the table valid and changes no other row, and not this row's active flag or token. |
| SubscriberController.FreshCodeVerifies | server/src/subscriber/subscriber.controller.ts:26-77 | A code just requested verifies at any time up to and including its expiry instant. |
| SubscriberController.UnsubscribeStep | server/src/subscriber/subscriber.controller.ts:89-118 | A blank or unknown token is refused and nothing changes. The set of emails never changes. |
| SubscriberController.UnsubscribeOnlyHolder | server/src/subscriber/subscriber.controller.ts:95-106 | A valid token deactivates its holder and nothing else. The table stays valid. |
| SubscriberController.UnsubscribedIsNoRecipient | server/src/subscriber/subscriber.controller.ts:103-106 | An unsubscribed holder is no longer a weekly-report recipient. |
| SubscriberController.SubscriberStore.RequestVerification | server/src/subscriber/subscriber.controller.ts:22-52 | The handler's new table and reply are those of `RequestStep`, and the table stays valid. |
| SubscriberController.SubscriberStore.VerifyCode | server/src/subscriber/subscriber.controller.ts:58-87 | The handler's new table and reply are those of `VerifyStep`. |
| SubscriberController.SubscriberStore.Unsubscribe | server/src/subscriber/subscriber.controller.ts:89-118 | The handler's new table and reply are those of `UnsubscribeStep`. |
| SubscriberController.SubscriberStore.TriggerTestReport | server/src/subscriber/subscriber.controller.ts:120-128 | In production the trigger is refused and no report runs. Elsewhere it answers, and the run is the weekly report over `listing`: skipped exactly when both queries are empty, otherwise one mail per active verified subscriber in listing order, minus the failed sends. |
| SubscriberController.VerifyRefusalsAreBadRequests | server/src/subscriber/subscriber.controller.ts:65-77 | Each verification refusal reaches the client as HTTP 400. |
| ExceptionsFilter.Catch | server/src/common/filters/all-exceptions.filter.ts:17-44 | The reply status equals `statusCode`. It is the exception's own status, or 500 with `Internal server error` for other errors. The message is the string response or the object's `message`, and the path is the request URL. |
| ExceptionsFilter.HandlerMessagesReachClient | server/src/common/filters/all-exceptions.filter.ts:21-35 | `BadRequestException(msg)` reaches the client as 400 with msg, and `ForbiddenException(msg)` as 403 with msg. |
| ExceptionsFilter.Non500ComesFromHttpException | server/src/common/filters/all-exceptions.filter.ts:21-24 | Only an HTTP exception produces a status other than 500. |
| WeeklyList.Sorted | client/src/components/dashboard/WeeklyList.tsx:46-57 | The sorted list is a permutation of the fetched list, ordered by the chosen option. |
| WeeklyList.SortDirections | client/src/components/dashboard/WeeklyList.tsx:48-53 | `latest` gives non-increasing start dates, `oldest` non-decreasing ones, `name` non-decreasing collation ranks. A missing date counts as 0. |
| WeeklyList.TotalPages | client/src/components/dashboard/WeeklyList.tsx:60 | `ceil(n/10)`: 0 exactly for no items, else the least t with n ≤ 10t. |
| WeeklyList.JsSlice | client/src/components/dashboard/WeeklyList.tsx:62 | `slice` clamps both bounds to the list, counting negative bounds from the end. |
| WeeklyList.ListView | client/src/components/dashboard/WeeklyList.tsx:40-65 | A missing or empty list gives nothing and 0 pages. Otherwise the view holds the list sorted by the chosen option and `ceil(n/10)` pages. |
| WeeklyList.PageContents | client/src/components/dashboard/WeeklyList.tsx:61-62 | Page p shows exactly the sorted entries (p−1)·10 up to min(n, 10p), never more than ten. |
| WeeklyList.EveryEntryOnItsPage | client/src/components/dashboard/WeeklyList.tsx:60-62 | Sorted entry k is item k mod 10 of page ⌊k/10⌋+1, and that page is one the controls offer. |
| WeeklyList.PaginationShownIffMoreThanTen | client/src/components/dashboard/WeeklyList.tsx:165 | The page control is shown exactly when there are more than ten IPOs. |
| WeeklyList.StatusOfAsWritten | client/src/components/dashboard/WeeklyList.tsx:112-116 | OPEN iff both dates are present and start ≤ today ≤ end. CLOSED iff both are present and today > end. Otherwise UPCOMING. |
| WeeklyList.LastDayShownClosed | client/src/components/dashboard/WeeklyList.tsx:112-116 | For an IPO ending on day 1 at midnight, the list shows CLOSED during day 1 while the today card shows it open. |
| WeeklyList.StatusOf | client/src/components/dashboard/TodayCard.tsx:20-24 | The corrected badge is OPEN exactly when the today card counts the IPO as open, through the end of the last day. |
| WeeklyList.StatusDiffersOnlyOnLastDay | client/src/components/dashboard/WeeklyList.tsx:112-116 | The two badges differ only after the end instant and within the same local day. |
| WeeklyList.StepsStayInRange | client/src/components/dashboard/WeeklyList.tsx:173-198 | Previous and next keep a page in [1, totalPages]. Previous at page 1 and next at the last page do nothing. |
| WeeklyList.ListState.HandleSortChange | client/src/components/dashboard/WeeklyList.tsx:68-71 | Changing the sort sets the option and returns to page 1. |
| WeeklyList.ListState.Previous | client/src/components/dashboard/WeeklyList.tsx:173 | The page becomes `PreviousPage` of the old page, and the sort is unchanged. |
| WeeklyList.ListState.Next | client/src/components/dashboard/WeeklyList.tsx:198 | The page becomes `NextPage` of the old page, and the sort is unchanged. |
| WeeklyList.ListState.SelectPage | client/src/components/dashboard/WeeklyList.tsx:178-185 | A page link sets the page to its number. |
| TodayCard.EndOfDay | client/src/components/dashboard/TodayCard.tsx:23 | `setHours(23, 59, 59, 999)` gives the last millisecond of the same local day, no earlier than the input and less than a day later. |
| TodayCard.TodayHighlight | client/src/components/dashboard/TodayCard.tsx:18-25 | The highlight is the first IPO in list order with start ≤ now ≤ end of the last day. There is none for a missing list or when nothing matches. |
| TodayCard.UndatedNeverHighlighted | client/src/components/dashboard/TodayCard.tsx:18-19 | An IPO missing either date is never the highlight of any list, and a list of such IPOs has no highlight. |
| TodayCard.LastDayIncluded | client/src/components/dashboard/TodayCard.tsx:22-24 | The whole local last day is inside the window, and nothing of the following days. |
| TodayCard.CompetitionText | client/src/components/dashboard/TodayCard.tsx:73 | An empty or missing competition shows `-`. |
| TodayCard.OfferText | client/src/components/dashboard/TodayCard.tsx:66 | A missing or zero offer price shows as undecided (`미정`). |
| EmailSubscription.SubscriptionForm.ClickSubscribe | client/src/components/dashboard/EmailSubscription.tsx:18-24 | While loading the click does nothing. An email that is empty or has no `@` only adds the error toast. Otherwise loading starts. The dialog and fields are untouched. |
| EmailSubscription.SubscriptionForm.SetEmail | client/src/components/dashboard/EmailSubscription.tsx:70 | Typing sets the email field to the input and changes nothing else. |
| EmailSubscription.SubscriptionForm.ResumeRequest | client/src/components/dashboard/EmailSubscription.tsx:26-30 | After the wait, loading ends, the dialog opens and the success toast is added. |
| EmailSubscription.SubscriptionForm.ClickVerify | client/src/components/dashboard/EmailSubscription.tsx:34-40 | While loading nothing happens. A code under six characters only adds the error toast, with dialog, email and code unchanged. Otherwise loading starts. |
| EmailSubscription.SubscriptionForm.ResumeVerify | client/src/components/dashboard/EmailSubscription.tsx:42-50 | After the wait, loading ends, the dialog closes, and the email and code are cleared. |
| EmailSubscription.SubscriptionForm.Cancel | client/src/components/dashboard/EmailSubscription.tsx:101 | Cancel closes the dialog and keeps the email and code. |
| EmailSubscription.SubscriptionForm.SetDialogOpen | client/src/components/dashboard/EmailSubscription.tsx:81 | The dialog's own open/close changes only the dialog flag. |
| EmailSubscription.SubscriptionForm.SetVerifyCode | client/src/components/dashboard/EmailSubscription.tsx:94-96 | The code field holds at most six characters. |
| ApiServer.OrDefault | client/src/lib/api.server.ts:10-18 | An unset or empty variable gives the default. |
| ApiServer.Clean | client/src/lib/api.server.ts:13 | The value with every quote removed and then trimmed. The result has no quotes and no surrounding whitespace, and a value that is already so is unchanged. |
| ApiServer.CleanIdempotent | client/src/lib/api.server.ts:13 | Cleaning twice is cleaning once. |
| ApiServer.GetApiUrl | client/src/lib/api.server.ts:8-24 | A value starting with `/` is replaced by the uncleaned `BACKEND_URL` or the default. Otherwise the result is the cleaned value. |
| ApiServer.ResolvedUrlIsAbsolute | client/src/lib/api.server.ts:16-23 | The resolved URL never starts with `/` unless `BACKEND_URL` does. |
| ApiServer.PublicUrlIsClean | client/src/lib/api.server.ts:13-23 | A URL taken from `NEXT_PUBLIC_API_URL` has no quotes or surrounding whitespace, and resolving it again gives it back. |
| ApiServer.QuotesOnlyGiveEmptyBase | client/src/lib/api.server.ts:10-13 | A value of only quotes is not replaced by the default. It resolves to the empty string. |
| ApiServer.ListUrl | client/src/lib/api.server.ts:46 | The list endpoint is the base URL followed by `/ipo`. |
| ApiServer.DetailUrl | client/src/lib/api.server.ts:58 | The detail endpoint is the list endpoint followed by `/` and the id. |
| ApiServer.ListAndDetailDiffer | client/src/lib/api.server.ts:46-58 | The detail URL is the list URL + `/` + id, so the two never coincide. |
| ApiServer.GetIpoListServer | client/src/lib/api.server.ts:45-55 | The list succeeds exactly on an ok response, with its body. A non-ok response is an error. |
| ApiServer.GetIpoDetailServer | client/src/lib/api.server.ts:57-67 | The detail fails only on a network error. A non-ok response yields null. |

## Left out

- HTTP fetching, EUC-KR decoding and cheerio's DOM selection in the crawler are left out. A page is an already-selected sequence of rows, each a name-cell text and cell texts, or a fetch/decode error.
- The detail-page scraping, name-keyed upserts, year inference for date ranges and the `{count, message}` result are not part of crawler.service.ts. They are not modelled.
- server/dist/src/crawler/crawler.service.js is a compiled copy of crawler.service.ts and is not modelled separately.
- Logging is left out, except the daily job's completion or failure (Scheduler.RunDailyCrawling). HTML templates, email subjects and `toLocaleDateString`/`toLocaleString` formatting are left out. The report mail keeps only its dates, lists and link. The unsubscribe page keeps only its heading.
- The Prisma schema is not part of this model. Three behaviours are assumptions: `orderBy: asc` puts null dates last (the PostgreSQL default), a new subscriber's `isVerified` defaults to false, and `unsubscribeToken` is a unique column, so a colliding uuid is a `StoreConflict` error.
- The class-validator checks of the DTOs (`IsEmail`, code length 6) are not modelled. Any email and code string is accepted.
- The throttling decorators (3 and 5 requests per minute) are left out. They are rate limits outside the handlers.
- `Math.random`, `uuidv4`, `Date.now` and `new Date()` stand as inputs. The random part is the floored integer `rand` in [0, 900000).
- Mail delivery stands as the set of addresses whose send fails, or a flag for the verification mail. The 100 ms pause between weekly mails is left out (timers).
- Scheduler.NextWeek: `setDate(+7)` is modelled as seven days of milliseconds. This is exact in the Asia/Seoul zone, which has no daylight saving.
- Scheduler.SendWeeklyReport: the recipients are given in the order the database returns them. The model fixes that order as the table's sequence order.
- SubscriberController.SubscriberStore.TriggerTestReport: the report runs over a listing of the table that the caller supplies, holding each row once. Map iteration order is not modelled, so which subscriber is mailed first is not pinned to the database's order.
- `triggerReportManually` only calls `sendWeeklyReportCron` and is covered by SendWeeklyReport.
- Collections.Sort is stable, which `Array.prototype.sort` guarantees since ES2019. Stability is not stated as a property.
- WeeklyList.Sorted: `localeCompare(..., 'ko')` is an abstract collation rank on names.
- WeeklyList: the date badge's month/day text (lines 119-128) and the `isLoading` skeleton are rendering and are left out.
- TodayCard.OfferText: the thousands-separated `toLocaleString()` rendering of a price is left out. The model keeps the number.
- EmailSubscription: the toast library, icons and the actual API calls (still TODO in the source) are left out. The one-second waits are split into a click step and a resume step.
- ApiServer: `console.log` is left out. `res.json()` is taken as already decoded, so its parse failures are not modelled.
- The client's date strings are taken as already-parsed timestamps (`new Date(s)`).
- Floating point is left out. Rates and premiums are exact reals, and `parseFloat` is modelled only on the digit/dot runs the regular expression can return.

## Findings

| source | as written | input that shows it | evidently intended | confidence | as-written member | corrected member |
|---|---|---|---|---|---|---|
| server/src/scheduler/scheduler.service.ts:22-23 | The completion log reads `result.count`, but crawler.service.ts:66 returns an array, which has no `count`. | Any successful crawl, e.g. one with 12 entries: the log says "Processed undefined items." | Log the number of entries crawled. | high; not executed | Scheduler.LoggedCountIsUndefined | Scheduler.LoggedCount |
| client/src/components/dashboard/WeeklyList.tsx:113-115 | The badge compares `today` with the `subEnd` instant itself, so an IPO whose subscription ends today shows CLOSED (마감) once that instant has passed. | subStart = day 0 00:00, subEnd = day 1 00:00, now = day 1 00:00:00.001 (UTC offset 0): the badge is CLOSED, while TodayCard.tsx:23-24 shows it open for the whole day. | OPEN through the end of the last day, as the today card computes it. | medium; not executed | WeeklyList.LastDayShownClosed | WeeklyList.StatusOf |
