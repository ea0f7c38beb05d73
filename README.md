# Ruumly back end: rent ledger, dashboard aggregations and helpers

A Dafny model of the computational core of the Ruumly property-management back end:

- **Rent ledger** (`RentService`). The rent records of all properties sit in a table keyed by id. The model covers creating a record (always `pending`), finding, updating and removing one (each fails with NotFound when no record has that id), and recording a payment. A payment accumulates the amount paid, recomputes the status, stamps the paid date and keeps or replaces the transaction id. The per-property rent statistics are modelled too.
- **Room occupancy** (`RoomsService`): counts of occupied, vacant and maintenance rooms and the occupancy rate.
- **Dashboard** (`DashboardService`), which has three parts:
  - the summary figures of a property;
  - the recent-activity feed: tenant, rent and room records become tagged events, are merged, stably sorted newest first and cut to `limit`;
  - the financial overview: rents are grouped by due month with their due and paid sums, one row per month in ascending month order.
- **Stable sort** (`Sorting`): the stable sort that `Array.prototype.sort` performs, written as an insertion sort on an integer key. The feed and the overview both use it.
- **Pagination helpers** (`PaginationUtil`): `paginate` clamps the page and the page size, and `formatResponse` computes the page count.
- **String helpers** (`StringUtil`): `slugify`, `capitalize` and `truncate`.
- **Request-body redaction** (`LoggingInterceptor`): before a request body is logged, the sensitive fields are masked.

Conventions of the model:

- Money is an integer in the smallest currency unit.
- Time is an integer number of milliseconds since the Unix epoch. The clock reading (`new Date()`) is a `now` parameter, and the schema's load-time default date is a `schemaDefault` parameter. A due date's month (`toISOString().slice(0, 7)`) is the integer 12 × year + month − 1 of its UTC civil date, computed by `Entities.MonthKey`.
- Rates are exact `real` ratios.
- The store's queries are replaced by their results: the records of one property, as sequences.
- The rent table is a class holding a `map` from id to record. Its methods change that map, and no other state.
- A request body is an `Option` of a JSON object.
- `getFinancialOverview` fills a month dictionary in a loop. It is modelled as a method with that loop, followed by the sort of the dictionary's values.
- `sanitizeBody` loops over the sensitive field names. It is modelled as a method with that loop over a copy of the body.
- The other operations are expressions in the source and are functions here. Each comes with lemmas that relate it to a reference definition, an inverse or an invariant.

## Model

| member | source | states |
|---|---|---|
| Entities.Percentage | src/modules/dashboard/dashboard.service.ts:37-38 | The guarded rate is 0 when the whole is not positive. Otherwise rate × whole = part × 100. It lies in [0, 100] when 0 ≤ part ≤ whole. |
| Entities.CivilMonthKey | src/modules/dashboard/dashboard.service.ts:106 | With the March-based month index mp in [0, 12), the month key is 4800 × era + 12 × year-of-era + mp + 2, that is 12 × year + month − 1 of the civil date. |
| Entities.MonthKeyFrom | src/modules/dashboard/dashboard.service.ts:106 | Given each quotient of the day-to-civil-date computation pinned by its bounds, the month key of a timestamp is 4800 × era + 12 × year-of-era + mp + 2. |
| Entities.MonthKeyAroundEpoch | src/modules/dashboard/dashboard.service.ts:106 | The month keys of the epoch (1970-01), of the millisecond before it (1969-12), and of the last and first milliseconds around New Year 2024. |
| Entities.MonthKeyAroundLeapDays | src/modules/dashboard/dashboard.service.ts:106 | The month keys of 29 February and 1 March in the leap years 2000 and 2024. |
| Entities.MonthKeyFarDates | src/modules/dashboard/dashboard.service.ts:106 | The month keys of 28 February and 1 March 1900 (not a leap year), of 0001-01-01 and of the last millisecond of 9999. |
| RentService.NewRent | src/modules/rent/rent.service.ts:15-21 | A created record has status pending whatever the request says. Every other request field is copied: the three ids, amount, due date, paid date, payment method, transaction id and notes. `amountPaid` defaults to 0. Both timestamps are the schema default, one date fixed when the schema is loaded (src/modules/rent/entities/rent.entity.ts:39-43). |
| RentService.NewRentIgnoresStatus | src/modules/rent/rent.service.ts:16-19 | Changing the requested status does not change the stored record. |
| RentService.ApplyPatch | src/modules/rent/rent.service.ts:47-53 | For each of the eleven fields, a present patch field overwrites the stored one and an absent one keeps it. `createdAt` is kept and `updatedAt` becomes the update time. |
| RentService.PatchMayBreakStatusRule | src/modules/rent/rent.service.ts:47-53 | An update can leave a fully paid record marked pending. The payment status rule is therefore not an invariant of the table. |
| RentService.StatusAfterPayment | src/modules/rent/rent.service.ts:78-80 | Each status has an if-and-only-if rule. `paid` holds iff the total covers the amount. `partial` holds iff 0 < total < amount. `pending` holds iff the total is ≤ 0 and below the amount. A payment never yields `overdue`. |
| RentService.ApplyPayment | src/modules/rent/rent.service.ts:78-91 | `amountPaid` grows by the payment, and the status follows the total by the rule above. `paidDate` is now exactly when the record becomes paid, and is unchanged otherwise. The payment method is replaced. The transaction id is replaced only by a present non-empty one. `updatedAt` is now. Ids, amount, due date, notes and `createdAt` are untouched. |
| RentService.TwoPaymentsAsOne | src/modules/rent/rent.service.ts:78-89 | Two payments leave the same amount paid, status, payment method and identity fields as one payment of their sum. |
| RentService.PaidStaysPaid | src/modules/rent/rent.service.ts:79-90 | A fully paid record stays paid under a non-negative payment, and its paid date is stamped again. |
| RentService.RentTable.Create | src/modules/rent/rent.service.ts:15-21 | Under a fresh id the table gains exactly the new pending record, stamped with the schema default. An id already in use fails and leaves the table unchanged. |
| RentService.RentTable.FindOne | src/modules/rent/rent.service.ts:34-45 | It succeeds iff the id is in the table, returning the stored record. Otherwise it returns NotFound for that id. |
| RentService.RentTable.Update | src/modules/rent/rent.service.ts:47-58 | An unknown id gives NotFound and leaves the table unchanged. Otherwise only that record is replaced, by the patched one. |
| RentService.RentTable.Remove | src/modules/rent/rent.service.ts:60-65 | An unknown id gives NotFound and leaves the table unchanged. Otherwise exactly that id is removed. |
| RentService.RentTable.RecordPayment | src/modules/rent/rent.service.ts:67-98 | An unknown id gives NotFound and leaves the table unchanged. Otherwise the record becomes `ApplyPayment` of the old one, the key set stays the same and every other record is unchanged. |
| RentService.TotalsAppend | src/modules/rent/rent.service.ts:111-112 | The sums of `amount` and of `amountPaid` distribute over concatenation. |
| RentService.StatusCountsPartition | src/modules/rent/rent.service.ts:113-115 | Every rent is counted under exactly one of the four statuses. |
| RentService.GetRentStats | src/modules/rent/rent.service.ts:109-126 | The totals are the sums of `amount` and `amountPaid`, and pending = total − paid. The three counts are the status counts, and with the partial rents they add up to the number of rents. The collection rate is 0 when the total is not positive, and otherwise paid × 100 / total. |
| RoomsService.RoomCountsPartition | src/modules/rooms/rooms.service.ts:66-68 | Every room is counted under exactly one of the four statuses. |
| RoomsService.GetOccupancyStats | src/modules/rooms/rooms.service.ts:64-77 | `total` is the number of rooms, and each count is the number of rooms with exactly that status. occupied + vacant + maintenance + reserved = total. The rate is the guarded percentage of occupied rooms (see `RoomsService.OccupancyRateBounds`). |
| RoomsService.OccupancyRateBounds | src/modules/rooms/rooms.service.ts:75 | The occupancy rate is 0 with no rooms, otherwise rate × total = occupied × 100, and it always lies in [0, 100]. |
| DashboardService.GetDashboardSummary | src/modules/dashboard/dashboard.service.ts:22-55 | vacant = total − occupied, which equals the vacant, maintenance and reserved rooms together. Active tenants, rent totals and the pending total are as the service computes them, and both rates are the guarded percentages (see `DashboardService.SummaryRates`). The pending rents are the pending and overdue ones. With the partial and paid ones they add up to the number of rents. |
| DashboardService.SummaryRates | src/modules/dashboard/dashboard.service.ts:37-38 | The occupancy rate is 0 with no rooms, otherwise rate × rooms = occupied × 100, and it lies in [0, 100]. The collection rate is 0 when nothing is due, otherwise rate × due = paid × 100. |
| DashboardService.TenantActivityOf | src/modules/dashboard/dashboard.service.ts:75-81 | A tenant gives a `created` tenant event stamped with its creation time. |
| DashboardService.RentActivityOf | src/modules/dashboard/dashboard.service.ts:82-88 | A rent gives a rent event. Its action is `paid` iff the rent's status is paid, else `updated`. It is stamped with the paid date when there is one, else `updatedAt`. |
| DashboardService.RoomActivityOf | src/modules/dashboard/dashboard.service.ts:89-95 | A room gives an `updated` room event stamped with `updatedAt`. |
| DashboardService.Timeline | src/modules/dashboard/dashboard.service.ts:74-96 | The merged events are a permutation of the three event lists, sorted newest first. |
| DashboardService.GetRecentActivity | src/modules/dashboard/dashboard.service.ts:57-99 | For a non-negative limit the feed has min(limit, all) entries. A negative limit drops that many events from the end, leaving max(all + limit, 0). Its entries are drawn from the events and sorted newest first, and it is a prefix of the timeline. No event left out is newer than one kept. |
| DashboardService.FeedEntriesFromSources | src/modules/dashboard/dashboard.service.ts:74-98 | Every feed entry is the event of some tenant, rent or room of the inputs. |
| DashboardService.FeedTieOrder | src/modules/dashboard/dashboard.service.ts:74-96 | Among events with equal timestamps, the timeline keeps the tenant events first, then rent events, then room events, each in source order. |
| Sorting.SortBy | src/modules/dashboard/dashboard.service.ts:96 | The sort is a permutation of its input, ordered by key. |
| Sorting.SortKeepsTies | src/modules/dashboard/dashboard.service.ts:96 | The sort is stable: the elements sharing a key keep their input order. |
| Sorting.SortStrict | src/modules/dashboard/dashboard.service.ts:118 | Sorting elements whose keys are all distinct gives strictly increasing keys. |
| Sorting.PrefixOfSorted | src/modules/dashboard/dashboard.service.ts:98 | A prefix of a sorted list is sorted and part of it, and no key it drops is smaller than one it keeps. |
| DashboardService.MonthsOfNonEmpty | src/modules/dashboard/dashboard.service.ts:105-113 | A month is a key of the grouping iff some rent falls in it. |
| DashboardService.RowForSnoc | src/modules/dashboard/dashboard.service.ts:114-115 | One more rent adds its amount and paid amount to its own month's row only. |
| DashboardService.ListsKeysAdd | src/modules/dashboard/dashboard.service.ts:107-113 | Recording a month: a new key goes at the end, each key is listed once, and the list holds exactly the dictionary's keys. |
| DashboardService.GroupStep | src/modules/dashboard/dashboard.service.ts:105-116 | One loop step keeps the dictionary equal to the per-month rows of the rents seen so far. |
| DashboardService.GroupByMonth | src/modules/dashboard/dashboard.service.ts:103-116 | The dictionary's keys are the months of the rents. Each month's row holds the sums of that month's rents. The key list is the months in the order their first rent occurs, which is the order the dictionary's keys were inserted. |
| DashboardService.FirstSeenListsMonths | src/modules/dashboard/dashboard.service.ts:107-113 | The months in order of first occurrence are exactly the rents' months, each listed once. |
| DashboardService.FirstSeenGrows | src/modules/dashboard/dashboard.service.ts:105-113 | A month keeps its place once seen: the months first seen in a list of rents begin those of any longer list. |
| DashboardService.GetFinancialOverview | src/modules/dashboard/dashboard.service.ts:101-119 | There is one row per month that has rents, in strictly ascending month order. Each row holds the sums due and paid over exactly that month's rents. |
| DashboardService.OverviewRows | src/modules/dashboard/dashboard.service.ts:118 | The sorted values of the dictionary are its rows, and they cover every month of the rents. |
| DashboardService.OverviewTotals | src/modules/dashboard/dashboard.service.ts:101-119 | The overview's rows add up to the property's total due and total paid, so every rent is counted in exactly one row. |
| PaginationUtil.Paginate | src/common/utils/pagination.util.ts:19-29 | The page is ≥ 1 and equal to the request when that is ≥ 1. The size is in [1, 100], equal to the request when in range and clamped otherwise. Absent arguments take the defaults 1 and 10. The offset is (page − 1) × size and never negative. |
| PaginationUtil.PaginateIdempotent | src/common/utils/pagination.util.ts:19-29 | Feeding the clamped page and size back in gives the same window. |
| PaginationUtil.PagesAreAdjacent | src/common/utils/pagination.util.ts:22 | Page p + 1 starts where page p ends. |
| PaginationUtil.CeilDiv | src/common/utils/pagination.util.ts:42 | `Math.ceil(a / b)` is the integer c with (c − 1)·b < a ≤ c·b for b > 0, with the mirrored bounds for b < 0. |
| PaginationUtil.FormatResponse | src/common/utils/pagination.util.ts:31-44 | data, total, page and limit pass through unchanged. The page count is absent exactly for a zero limit. For a positive limit (pages − 1)·limit < total ≤ pages·limit; for a negative one the mirrored pages·limit ≤ total < (pages − 1)·limit. There are 0 pages for 0 records. |
| PaginationUtil.EveryRecordOnAPage | src/common/utils/pagination.util.ts:19-44 | For a valid page size, every record index lies inside the window of a page between 1 and the page count, and the last page is not empty. |
| StringUtil.LowerChar | src/common/utils/string.util.ts:23 | ASCII capitals become small letters, the Kelvin sign U+212A becomes `k` and the capital dotted I U+0130 becomes `i`. Every other character is kept, and no ASCII capital survives. |
| StringUtil.UpperChar | src/common/utils/string.util.ts:34 | An ASCII small letter becomes the capital whose lower case it is. Anything else is kept. |
| StringUtil.Lower | src/common/utils/string.util.ts:23 | The string is lower-cased character by character. |
| StringUtil.Trim | src/common/utils/string.util.ts:24 | The result is the input with all of its leading and trailing white space removed, and the characters between kept in place. Neither end of the result is white space, and an input with no white space at its ends is unchanged. |
| StringUtil.TrimKeeps | src/common/utils/string.util.ts:24 | Trimming keeps the letters and digits and adds no capital. |
| StringUtil.KeepWordChars | src/common/utils/string.util.ts:25 | Only `\w`, white space and `-` remain. A single character is kept exactly when it is one of those. Text without capitals becomes letters, digits and separators only. |
| StringUtil.KeepWordCharsAppend | src/common/utils/string.util.ts:25 | The filter works character by character: filtering a + b is filtering a followed by filtering b. |
| StringUtil.KeepWordCharsFixedPoint | src/common/utils/string.util.ts:25 | Text made only of kept characters is unchanged. |
| StringUtil.KeepWordCharsAlnums | src/common/utils/string.util.ts:25 | The letters and digits of the input all survive, in order. |
| StringUtil.CollapseSeparators | src/common/utils/string.util.ts:26 | No separator other than `-` survives and no two `-` are adjacent. The result starts with `-` iff the input starts with a separator. Letters, digits and separators in, slug characters out. |
| StringUtil.CollapseAlnums | src/common/utils/string.util.ts:26 | The letters and digits are kept, in order. |
| StringUtil.CollapseAppend | src/common/utils/string.util.ts:26 | After a non-separator the text can be cut in two: collapsing a + t is collapsing a followed by collapsing t. |
| StringUtil.CollapseRun | src/common/utils/string.util.ts:26 | A non-empty run of separators before a non-separator becomes exactly one `-`. |
| StringUtil.CollapseSplit | src/common/utils/string.util.ts:26 | A run of separators between two non-separators becomes one `-`, and the text on either side is collapsed on its own. |
| StringUtil.CollapseFixedPoint | src/common/utils/string.util.ts:26 | Text whose only separators are single `-` is unchanged. |
| StringUtil.StripDashes | src/common/utils/string.util.ts:27 | The result is the input with all of its leading and trailing dashes removed, and the characters between kept in place. Neither end of the result is `-`, and an input without dashes at its ends is unchanged. |
| StringUtil.StripDashesKeeps | src/common/utils/string.util.ts:27 | Stripping keeps the letters and digits, the slug characters and the no-double-dash property. |
| StringUtil.Slugify | src/common/utils/string.util.ts:21-28 | The result has only small letters, digits and `-`, no `-` at either end and no two adjacent. Its letters and digits are those of the lower-cased input, in order. |
| StringUtil.SlugIsFixedPoint | src/common/utils/string.util.ts:21-28 | A well-formed slug is left unchanged. |
| StringUtil.SlugifyIdempotent | src/common/utils/string.util.ts:21-28 | slugify(slugify(s)) = slugify(s). |
| StringUtil.SlugifyJoin | src/common/utils/string.util.ts:21-28 | Two non-empty slugs joined by any run of white space, `_` or `-` slugify to the two slugs joined by a single `-`. |
| StringUtil.SlugifyDropsPunctuation | src/common/utils/string.util.ts:21-28 | A punctuation character (not a capital, not `\w`, white space or `-`) between two words of small letters and digits is removed, so the words run together: `a!b` gives `ab`. |
| StringUtil.Capitalize | src/common/utils/string.util.ts:33-35 | Length is preserved and everything after the first character is unchanged. A small first letter becomes its capital. Any other input, "" included, is returned as is. |
| StringUtil.CapitalizeIdempotent | src/common/utils/string.util.ts:34 | Capitalising twice is capitalising once. |
| StringUtil.Truncate | src/common/utils/string.util.ts:40-42 | A string no longer than the limit (default 50) is returned as is. A longer one becomes a prefix of it, as long as the limit (or empty for a negative limit), followed by `...`. |
| StringUtil.TruncateIdempotent | src/common/utils/string.util.ts:41 | Truncating twice to the same length is truncating once. |
| LoggingInterceptor.Redacted | src/common/interceptors/logging.interceptor.ts:42-49 | The key set is the same. Every sensitive key present maps to the mask, and every other key keeps its value. |
| LoggingInterceptor.SanitizeBody | src/common/interceptors/logging.interceptor.ts:39-52 | A missing body is returned as is. Otherwise the result is the redacted copy, and the caller's body, a value, is unchanged. |
| LoggingInterceptor.RedactedIdempotent | src/common/interceptors/logging.interceptor.ts:45-49 | Sanitising a sanitised body changes nothing. |
| LoggingInterceptor.MatchIsExactAndTopLevel | src/common/interceptors/logging.interceptor.ts:43-46 | `Password` (other case) and a nested object under a non-sensitive key are kept as they are. |

## Left out

- Database access is replaced by its results. The Mongoose queries, population of references, the store-side sorts and limits, and id generation are not modelled. `Create` takes the new id as a parameter, and its DuplicateKey error stands for the store rejecting a used id.
- `findAll` and `getPendingRent` in src/modules/rent/rent.service.ts are store queries with no logic of their own.
- Concurrency is not modelled: the `Promise.all` fan-out, and the unguarded read-then-write of `recordPayment`, which can lose a concurrent payment.
- src/modules/rent/dto/update-rent.dto.ts is not part of this model. The update request is taken to be the create request with every field optional.
- The store's automatic timestamps are modelled as setting `updatedAt` to `now` on every update and payment. A new record's `createdAt` and `updatedAt` are the schema default: `new Date()` in src/modules/rent/entities/rent.entity.ts:39-43 is evaluated once, when the schema class is loaded, and is a parameter here. This follows Mongoose's timestamp handling as documented, which keeps a `createdAt` that is already set; src/modules/tenants/entities/tenant.entity.ts:54-58 declares the same default, so tenant events carry that date too.
- A malformed id makes `findById`, `findByIdAndUpdate` and `findByIdAndDelete` throw a cast error (an HTTP 500) before any NotFound (src/modules/rent/rent.service.ts:36, 49, 61, 73). Ids are opaque keys here, so only NotFound is modelled.
- Floating point is not modelled. Rates are exact ratios, and `toFixed(2)` formatting of the dashboard rates is left out. Money is an integer in the smallest currency unit.
- Dates: `MonthKey` follows the proleptic Gregorian calendar in UTC. The string order of `toISOString().slice(0, 7)` agrees with the numeric month key only for years 0 to 9999; for other years `toISOString` writes a six-digit signed year, and beyond ±8.64e15 ms it throws a RangeError. Neither is modelled.
- MonthKey: that later timestamps never get an earlier month is not proved. The calendar arithmetic is proved for fixed dates (`MonthKeyAroundEpoch`, `MonthKeyAroundLeapDays`, `MonthKeyFarDates`) and reduced to the civil-date formula by `MonthKeyFrom`.
- DashboardService.RentActivityOf: the description `Rent payment of <paid>/<amount>` is left out of the rent event, because it only formats numbers as text.
- DashboardService.GetRecentActivity: the limit is an integer; a `limit` that `parseInt` turns into NaN is not modelled. The three source lists are given inputs, already capped at `limit` each by the store.
- PaginationUtil.Paginate: page and limit are integers; fractional or NaN values are not modelled.
- PaginationUtil.FormatResponse: a zero limit gives no page count, which stands for the `Infinity`/`NaN` that the JSON response serialises as null.
- StringUtil.Truncate: lengths count characters. JavaScript counts UTF-16 code units, so the two agree inside the Basic Multilingual Plane; for text with characters outside it, the cut point and the length test differ, and JavaScript may split a surrogate pair.
- StringUtil.Capitalize: only ASCII small letters are upper-cased. Non-ASCII case mapping (`é` to `É`, `ß` to `SS`) is not modelled.
- StringUtil.LowerChar: non-ASCII letters other than U+212A and U+0130 keep their case. The next step of `slugify` removes every non-ASCII letter whatever its case, so the slug is unaffected. Characters outside the Basic Multilingual Plane are single characters here and two UTF-16 code units in JavaScript; every step removes or keeps both code units together, so the slug is the same.
- LoggingInterceptor.SanitizeBody: the body is a JSON object or absent. A body that is a non-empty string or an array would be spread into an object keyed by its indices (a number or a boolean spreads into an empty object); this is not modelled.
- `generateRandom` in src/common/utils/string.util.ts depends on `Math.random`.
- The rest of the interceptor (`intercept`: request timing and log output) and the logger itself are I/O.
- Authentication, the other services (tenants, rooms CRUD, properties, owners, users, health), configuration, controllers and modules are not modelled. They are store wrappers, I/O or wiring.
