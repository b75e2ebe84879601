# strukly receipt bookkeeping and revenue reporting, in Dafny

strukly keeps a user's shopping receipts in a document store and reports revenue from them.
This project models the deterministic core of that bookkeeping and reporting and proves
properties of the model:

- **Revenue statistics** (`getRevenueStats`, module `RevenueStats`). The user's receipts are
  selected, optionally within an inclusive time window that only applies when both bounds are
  given. They are then summed into a total, a count and an average, and credited to five
  string-keyed accumulators: monthly, daily, hourly, by category and by merchant. Each
  receipt's date is its Timestamp, its parsed ISO string, or the current time.
- **Receipt store counters** (`createReceipt`, `updateReceipt`, `deleteReceipt`, module
  `ReceiptStore`). A class holds the receipts collection and each user's `totalReceipts` /
  `totalRevenue` counters. The invariant `Valid` states that the counters equal the count and
  revenue of that user's receipts.
- **Search** (`searchReceipts`, module `Search`): an order-preserving, case-insensitive
  substring filter on store and item names.
- **Revenue page** (module `RevenuePage`):
  - the time window each filter selects;
  - the four chart series `getChartData` builds from the accumulators;
  - the merchant ranking and its rounded percentages.

Supporting modules:

- `Dict` models a JavaScript object used as an accumulator. It is a list of (key, value)
  properties in insertion order, the order `Object.entries` reports. `Tally` is the
  accumulator after a sequence of additions.
- `Ordering` holds the sort by key and the stable sort by value descending.
- `Sums` holds additive reductions.
- `Receipts` holds the receipt record.
- `Wrappers` holds Option and Result.

Parameters stand in for the calendar and locale: the month key, day key, hour key and ISO
parsing in `RevenueStats.DateKeys`; local midnight, first of month, first of year, day of month
and the three locale labels in `RevenuePage.PageCalendar`. The current time is a parameter.
Money is an unbounded integer in the currency's minor unit. The average is a real.

Two behaviours of the code a reader might not expect, which the model follows:

- A `createdAt` string that does not parse makes `getRevenueStats` fail with
  `InvalidTimeValue`. Formatting the resulting invalid date as an ISO string throws. The model
  does not substitute the current time for it.
- The window comparison only matches receipts whose `createdAt` is a Timestamp. A range
  filter on Timestamps excludes values of other types.

## Model

| member | source | states |
|---|---|---|
| RevenueStats.Query | lib/db-service.ts:161-179 | a receipt is selected exactly when it belongs to the user and, when both bounds are given, its Timestamp `createdAt` lies in the inclusive window |
| RevenueStats.HalfOpenWindowIgnored | lib/db-service.ts:167-179 | with either bound missing, no window applies: all of the user's receipts are selected |
| RevenueStats.EffectiveTime | lib/db-service.ts:199-212 | a receipt's date is its Timestamp's time, its string as parsed, or the current time for any other value; it is undetermined exactly when `createdAt` is a string that does not parse |
| RevenueStats.GetRevenueStats | lib/db-service.ts:160-241 | the query for the user and window followed by the aggregation: succeeds exactly when every selected receipt has a determinable date, and then returns the statistics of the selected receipts; otherwise it fails with InvalidTimeValue |
| RevenueStats.Aggregate | lib/db-service.ts:187-241 | the loop over the selected receipts succeeds exactly when each one's date can be determined, and its result then equals the statistics of those receipts (total, count, average and the five accumulators built in receipt order); a receipt whose date string does not parse makes it fail with InvalidTimeValue |
| RevenueStats.Average | lib/db-service.ts:189 | the average transaction times the receipt count is the total revenue when there are receipts, and is zero when there are none |
| RevenueStats.AccumulatedIsTally | lib/db-service.ts:197-229 | crediting the receipts one by one in the loop produces the tally of their (key, amount) additions |
| RevenueStats.StatsTotals | lib/db-service.ts:187-228 | totalReceipts is the count; totalRevenue is the sum of amounts (zero-amount receipts count); the monthly, daily, hourly and merchant accumulators each sum to totalRevenue |
| RevenueStats.CategoryTotal | lib/db-service.ts:222-224 | the category breakdown sums to the revenue of the receipts that have a non-empty category, which for non-negative amounts lies between zero and totalRevenue |
| RevenueStats.MerchantTotal | lib/db-service.ts:226-228 | every receipt is credited to a merchant (the store name or "Unknown Merchant"), so the merchant breakdown sums to the total revenue, dated or not |
| RevenueStats.CategoryPairsTotal | lib/db-service.ts:222-224 | the category accumulator's additions are exactly the (category, amount) pairs of the receipts with a non-empty category, and they sum to those receipts' revenue |
| RevenueStats.PairsTotal | lib/db-service.ts:218-228 | when every receipt is credited in an accumulator, its additions sum to the total revenue |
| RevenueStats.PairsKeys | lib/db-service.ts:218-228 | a key appears among an accumulator's additions exactly when some receipt is credited under it |
| RevenueStats.Buckets | lib/db-service.ts:197-228 | each accumulator has no repeated key, has a key exactly when some receipt is credited under it, and holds under each key the sum of the amounts of the receipts credited there |
| RevenueStats.AverageTransaction | lib/db-service.ts:189 | the average times the count is the total when there are receipts; with none, all statistics are zero and the accumulators empty |
| RevenueStats.OrderIndependent | lib/db-service.ts:187-229 | any reordering of the selected receipts gives the same totals, count, average and accumulator contents (as key-to-value maps) |
| ReceiptStore.Patched | lib/db-service.ts:102-106 | the stored receipt after an update keeps its id and creation date; each field the patch gives (owner, store name, amount, items, category) replaces the stored one and each it omits is kept; `updatedAt` is set to the update's ISO time, so an empty patch changes only `updatedAt` |
| ReceiptStore.OwnerTotalsRemove | lib/db-service.ts:23-140 | a user's receipt count and revenue can be computed by taking out any one receipt first |
| ReceiptStore.CreateKeepsConsistent | lib/db-service.ts:36-44 | adding one receipt and its amount to the owner's counters keeps every counter equal to its owner's receipt count and revenue |
| ReceiptStore.DeleteKeepsConsistent | lib/db-service.ts:133-139 | taking one receipt and its amount off the owner's counters on delete keeps the counters consistent |
| ReceiptStore.AsWrittenCounters | lib/db-service.ts:111-117 | as written, an update changes only the previous owner's revenue (by new minus old, when an amount is given and differs) and never a receipt count |
| ReceiptStore.AsWrittenOwnerChangeBreaksCounters | lib/db-service.ts:94-120 | a consistent store with one receipt of 10 owned by "a", patched to owner "b", has inconsistent counters after the update as written |
| ReceiptStore.MovedAgreesWhenOwnerKept | lib/db-service.ts:111-117 | when the owner is unchanged, moving the receipt between owners' counters is exactly the code's revenue adjustment |
| ReceiptStore.UpdateKeepsConsistent | lib/db-service.ts:94-120 | moving the receipt's count and amount from its previous owner to its new one keeps the counters consistent for every patch |
| ReceiptStore.Store.constructor | lib/db-service.ts:23-140 | an empty collection with zero counters for each user is consistent |
| ReceiptStore.Store.CreateReceipt | lib/db-service.ts:23-47 | stores the new receipt with both dates set to now and returns it, adding 1 and its amount to the owner's counters; fails with nothing changed when the owner has no profile; keeps the invariant |
| ReceiptStore.Store.UpdateReceipt | lib/db-service.ts:94-120 | a missing id fails with "Receipt not found" and nothing changed; otherwise stores and returns the patched receipt; an update keeping the owner moves only that owner's revenue by new minus old and never a count; keeps the invariant |
| ReceiptStore.Store.DeleteReceipt | lib/db-service.ts:122-140 | a missing id fails with "Receipt not found" and nothing changed; otherwise removes the receipt and takes 1 and its amount off its owner's counters; keeps the invariant |
| Search.LowerIdempotent | lib/db-service.ts:254-258 | lower-casing twice is lower-casing once |
| Search.FilterMatching | lib/db-service.ts:254-258 | the client-side filter keeps exactly the receipts whose store name or some item name contains the term, ignoring case, and never lengthens the list |
| Search.FilterMatchingAppend | lib/db-service.ts:254-258 | the filter distributes over concatenation, so the results keep the store's order |
| Search.SearchReceipts | lib/db-service.ts:244-258 | a receipt is found exactly when it is in the store, belongs to the user, and its store name or some item name contains the term, ignoring case |
| Search.EmptyTermFindsAll | lib/db-service.ts:254-258 | an empty term matches every receipt, in order |
| Search.SearchEmptyTerm | lib/db-service.ts:244-258 | searching for the empty term returns all of the user's receipts |
| Search.SearchIgnoresCase | lib/db-service.ts:254-258 | searching for the lower-cased term finds the same receipts |
| Search.FilterMatchingIdempotent | lib/db-service.ts:254-258 | searching the results again with the same term returns them unchanged |
| RevenuePage.WindowFor | app/revenue/page.tsx:77-94 | the end is now; a start exists exactly for the four known filters; today starts at local midnight, the week 604800000 ms before now, the month on its first day and the year on January 1 |
| RevenuePage.QueryNarrows | lib/db-service.ts:167-179 | moving the start of an inclusive window later selects exactly the wider selection filtered again by the narrower window, in the same order |
| RevenuePage.WindowsNested | app/revenue/page.tsx:77-94 | the selections refine one another, in store order: today's receipts are the month's selection filtered from local midnight, the month's are the year's filtered from the first of the month, and, when midnight is within the last seven days, today's are the week's filtered from midnight |
| RevenuePage.UnrecognisedFilterSelectsAll | app/revenue/page.tsx:77-94 | an unrecognised filter leaves the start undefined, so all of the user's receipts are aggregated |
| RevenuePage.WindowSelectionNested | app/revenue/page.tsx:77-94 | a receipt selected for today is selected for the month, and one selected for the month is selected for the year |
| RevenuePage.WeekNumber | app/revenue/page.tsx:171-172 | the week of a day of the month is its ceiling division by 7 and lies in 1..5 |
| RevenuePage.WeekLabelOfKey | app/revenue/page.tsx:173-178 | a week key is labelled "Week n" in English and "Minggu n" in Indonesian |
| RevenuePage.GroupedIsTally | app/revenue/page.tsx:165-175 | the re-bucketing loop produces the tally of the days under their mapped keys |
| RevenuePage.Rebucketed | app/revenue/page.tsx:165-196 | re-bucketing keeps the total, gives one entry per distinct mapped key in first-appearance order, and holds under each key the sum of its entries |
| RevenuePage.GetChartData | app/revenue/page.tsx:135-201 | empty while the statistics are not loaded or for an unknown filter; today is the hourly entries by key, week the last seven days by key, month the days summed into weeks, year the days summed into month labels; the month and year series keep the daily total |
| RevenuePage.DaysTotal | app/revenue/page.tsx:165-196 | sorting the days and re-bucketing them keeps the total |
| RevenuePage.TodaySeries | app/revenue/page.tsx:139-151 | one point per hour, in strictly ascending key order, carrying the hour's revenue unchanged; the points sum to the hourly total |
| RevenuePage.WeekSeries | app/revenue/page.tsx:153-161 | min(7, n) points in ascending key order, each an existing day; every day left out has an earlier key than every day shown |
| RevenuePage.MonthSeries | app/revenue/page.tsx:163-180 | the weekly totals sum to the daily total, no week appears twice, weeks appear in order of their first day, and each week holds its days' revenue |
| RevenuePage.MonthSeriesLabels | app/revenue/page.tsx:170-180 | every point of the month series is one of the weeks 1..5 and is labelled with that week |
| RevenuePage.YearSeries | app/revenue/page.tsx:182-196 | one point per distinct month label of the days, no label twice, each holding its days' revenue, the total kept |
| RevenuePage.MerchantData | app/revenue/page.tsx:205-209 | the merchant list is empty while the statistics are not loaded; otherwise it is a permutation of the merchant breakdown, non-increasing in revenue, keeping merchants of equal revenue in their breakdown order |
| RevenuePage.MerchantRanking | app/revenue/page.tsx:205-209 | the ranking is a permutation of the merchant breakdown, non-increasing in revenue, stable for equal revenue, and the only order with these properties |
| RevenuePage.Percentage | app/revenue/page.tsx:493-494 | there is a percentage exactly when the total is non-zero, and it is the p with p - 1/2 <= 100 * revenue / total < p + 1/2: the rounding with halves up |
| RevenuePage.PercentageBounds | app/revenue/page.tsx:493-494 | for 0 <= revenue <= total and a positive total, the percentage lies in 0..100 |
| RevenuePage.Shares | app/revenue/page.tsx:492-494 | one percentage per merchant against the sum of all merchants' revenue: none when that sum is zero; for a positive sum each is the rounding of its share, each lies in 0..100 when no revenue is negative, and for n merchants their sum satisfies 200 - n < 2 * sum <= 200 + n |
| RevenuePage.PercentagesSumBounds | app/revenue/page.tsx:492-494 | the rounded percentages of n merchants, doubled and summed, lie within n of 200 times their revenue share |
| RevenuePage.PercentagesNearHundred | app/revenue/page.tsx:492-494 | with a positive total, the n percentages add up to 100 give or take n/2 |
| RevenuePage.PercentagesInRange | app/revenue/page.tsx:492-494 | with non-negative revenues and a positive total, every percentage lies in 0..100 |
| Dict.AddGet | lib/db-service.ts:218-228 | adding an amount under a key raises that key's value by the amount and leaves every other key's value alone |
| Dict.AddKeys | lib/db-service.ts:218-228 | adding under a key adds only that key; a new key is appended at the end of the insertion order |
| Dict.TallyKeyOrder | lib/db-service.ts:218-228 | an accumulator has no repeated key, and lists its keys in order of first addition |
| Dict.TallyPermutation | lib/db-service.ts:218-228 | the same additions in any order give the same key-to-value map |
| Ordering.SortByKeyCorrect | app/revenue/page.tsx:142 | sorting by key gives a permutation in ascending key order |
| Ordering.SortByKeyStrict | app/revenue/page.tsx:142 | sorting an accumulator's entries by key keeps its keys and puts them in strictly ascending order |
| Ordering.SortByRevenueDescCorrect | app/revenue/page.tsx:207 | sorting by revenue gives a permutation, non-increasing in revenue, that keeps the insertion order of equal revenues |
| Ordering.StableDescendingUnique | app/revenue/page.tsx:207 | two non-increasing orders that keep equal revenues in the same relative order are identical |

## Left out

- Store plumbing is not modelled: query construction, document reads, batched writes,
  `increment` as a remote operation, `getUserReceipts` pagination, and the pass-through
  `getReceipt`, `getUserProfile` and `updateUserProfile`. The store is an in-memory map, and
  query results are given as a sequence in the store's order. Ordering by `createdAt`
  descending, and the exclusion of documents without a `createdAt`, are taken as given.
- Each write is treated as atomic. In `updateReceipt` and `deleteReceipt` the receipt and the
  counters are written separately, so a failure between the writes is not modelled.
- The per-receipt current time of `getRevenueStats` and the two current times of the
  page's window are one parameter `now`.
- The new receipt's id is a parameter the caller guarantees is fresh. This stands for the
  store's auto-id.
- Calendar, time zone and locale formatting are not modelled. Month, day and hour keys, ISO
  parsing, start of day, month and year, the day of the month and the locale labels are
  abstract functions. The lemmas that relate window starts assume only
  `CalendarOrdered`.
- IEEE floating point is not modelled. The average is a real. The percentage is exact
  rounding with halves up, and `Math.round` on a float can differ from it at exact halves that
  the float does not represent. A zero total gives no percentage (NaN or an infinity in the
  source).
- JavaScript `Object.entries` lists integer-like keys (such as a category named "2024")
  first, in numeric order. The model keeps every key in insertion order. Date, week and month
  keys are never integer-like.
- Lower-casing is ASCII only; the Unicode case mapping of `toLowerCase` is not modelled.
- Ordering.SortByKey: the chart series sort their keys with `localeCompare`, which the model
  replaces by code-unit order. The two agree on the fixed-width ISO date, hour and month keys
  the statistics produce, but not on arbitrary strings.
- RevenueStats.MerchantTotal, RevenueStats.CategoryTotal, RevenueStats.Buckets: the
  accumulators are plain JavaScript objects, so a key that names an inherited member behaves
  differently. A merchant or category named "constructor" reads the inherited function
  instead of 0 and stores a string, and one named "__proto__" ignores the assignment, so its
  amount is lost. The model treats every key as a fresh entry, and these sums hold only for
  keys that are not Object.prototype member names.
- Search.SearchReceipts: the source throws on a receipt without a `storeName`. It also throws
  on a receipt without `items` when its store name did not match, and on an item without a
  `name`. The model reads an absent store name or item name as the empty string and absent
  items as none, so it returns a result where the source fails.
- ReceiptStore.Store.UpdateReceipt: the patch covers the owner, store name, amount, items and
  category. Patches to the id or the dates, which the source would also write through, are
  not modelled.
- ReceiptStore.Store.UpdateReceipt: when a patch names an owner who has no profile, the
  corrected update fails with UserNotFound and changes nothing. The source would store the
  patch.
- The API routes, the mobile navigation and settings components, React state and effects, and
  the chart rendering are not part of this model.

## Findings

| source | as written | input that shows it | evidently intended | confidence | as-written member | corrected member |
|---|---|---|---|---|---|---|
| lib/db-service.ts:111-117 | `updateReceipt` adjusts only the previous owner's revenue, and only by the amount difference, even when the patch changes `userId` | a store with one receipt of 10 owned by "a" (counters a: 1/10, b: 0/0), updated with userId "b": the counters stay a: 1/10, b: 0/0 while "a" owns nothing and "b" owns the receipt | the receipt's count and amount move from the previous owner to the new one, so the counters stay equal to each user's receipts | not executed | ReceiptStore.AsWrittenOwnerChangeBreaksCounters | ReceiptStore.UpdateKeepsConsistent |
