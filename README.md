# APODEmail subscriber counters in Dafny

This project models the subscriber/month-counter consistency engine of the
APOD email service:

- **The store** (`src/database.js`). It holds the `UserSignup` records and one `MonthlyStats` counter per `YYYY-MM` month key. `createUser` and `deleteUser` change a record and its month counter in one transaction. `getUsersByDateRange`, `getMonthlyCounts`, `getSignupDates`, `saveStats` and `getStats` read the store or write the cached stats.
- **The stats aggregator** (`src/services/statsService.js`). It sorts the counter keys and drops implausible years. It builds the parallel `labels`/`data` series and their `total`, and overwrites the cached `GlobalStats` entity with them.
- **The one-off backfill** (`migrate_counters.js`). It deletes every counter in batches of 500. It then reads every signup date, applies the microseconds heuristic to raw numbers, and tallies one count per luxon `yyyy-MM` month. Finally it writes one row per month and reports processed against written.

Files:

| file | contents |
|---|---|
| `prelude.dfy` | `Option`, `Result`, sums over maps and sequences |
| `strings.dfy` | JavaScript string pieces: `${n}`, `padStart`, `split('-')[0]`, `parseInt`, and `Array.prototype.sort` order on strings |
| `dates.dfy` | month indices, the calendar as a parameter, stored date values and `new Date(x)` |
| `database.dfy` | the store (class `Database`), transactions (class `Transaction`) and `getMonthKey`/`updateMonthlyCount` |
| `consistency.dfy` | the invariants that the counters sum to the number of records, and match the records month by month |
| `stats_service.dfy` | `generateAndSaveStats` and `getCachedStats` |
| `migrate_counters.dfy` | `migrateCounters` and what its tally means in terms of the records |

Modelling choices:

- **Time.** Timestamps are integer milliseconds. The calendar is a `Calendar` value passed as a parameter. It gives the local and UTC month of an instant, the start of a UTC month, and the string parsers of `new Date(s)` and luxon `fromISO`. Every operation that reads a date receives the same calendar, so the store and the backfill agree on what a month is.
- **Stored dates.** A stored `date` is a JavaScript value: a `Date`, a string, a number, `null` or missing. `if (user.date)` truthiness, `new Date(x)` and its Invalid Date (outside ±8.64e15 ms) are written out.
- **Transactions.** A transaction stages saves and deletes. The store's commit decision is the parameter `accept`: a refused commit is the failure path (rollback and rethrow), and it leaves the store unchanged.
- **`parseInt` and NaN.** `parseInt` is modelled with NaN as `None`. As in the code, a key whose year does not parse passes the year filter, because both comparisons against NaN are false.

Behaviour of the code that the model keeps as written:

- **Month keys.** The store keys a month by `` `${year}-${MM}` `` of `new Date(x)` (src/database.js:123-128). The backfill keys it by luxon's `yyyy-MM` after its own `/1000` step for large numbers (migrate_counters.js:39-55). `KeyedAlike` is the exact condition under which the backfill files a stored date under the same counter that `deleteUser` decrements for it: the date is truthy and both keys are equal. It fails in these cases:
  - years of fewer than four digits, which luxon pads with zeros (`LuxonKeyAgrees`);
  - microsecond numbers, which only the backfill divides (`HeuristicOnNumbersOnly`);
  - strings, which `new Date(s)` and luxon `fromISO` read with different parsers (`cal.parseDate` and `cal.parseIso`);
  - falsy stored dates (`null`, `0`). Here the keys can agree: the backfill files them under the month of instant 0, which is also the key `getMonthKey` gives whenever the year at instant 0 has four digits. What fails is the `if (user.date)` gate, so `deleteUser` never decrements a counter for them.
- **The year filter.** Keys whose year parses to NaN pass the filter at src/services/statsService.js:25, because both comparisons against NaN are false. These are `NaN-NaN` from an Invalid Date and keys with negative years (`InvalidDateKeyKept`, `NegativeYearKept`).
- **Which records count.** Every record is counted, whatever its `active` field. `createUser` always stores `active = true`.

## Model

| member | source | states |
|---|---|---|
| Dates.MonthOf | src/database.js:126 | `getMonth() + 1` is always a month number 1..12 |
| Dates.MonthIndexRoundTrip | src/database.js:124-126 | a month index is recovered from its year and month |
| Dates.YearMonthRoundTrip | src/database.js:124-126 | year and month are recovered from their month index |
| Dates.MonthStartOrder | src/database.js:101-106 | the start of month `i` is at or before instant `t` iff `i` is not after `t`'s UTC month |
| Dates.Truthy | src/database.js:211 | `if (user.date)`: a `Date` object is always truthy, an empty string, 0, null and undefined are not |
| Dates.JsDate | src/database.js:124 | a valid `new Date(x)` always lies within ±8.64e15 ms |
| Strings.NatToString | src/database.js:127 | `${n}` for `0 <= n < 1e21` (where JavaScript still writes plain decimals) is a nonempty digit string with no leading zero, whose value is `n` |
| Strings.NatToStringLength | src/database.js:127 | `${n}` has at most `k` characters iff `n < 10^k` |
| Strings.NatToStringFourDigits | src/database.js:127 | `${year}` has exactly four characters iff `1000 <= year <= 9999` |
| Strings.IntToString | src/database.js:127 | `${year}` of a non-negative year is a nonempty digit string with no leading zero (other than "0" itself) whose value is the year; of a negative year it is a minus sign followed by such digits, not starting with 0, whose value is the magnitude |
| Strings.PadStart | src/database.js:126 | `padStart(width, fill)` keeps the string as the suffix, fills only on the left, and reaches `width` exactly when shorter |
| Strings.BeforeFirst | src/services/statsService.js:22 | `split('-')[0]` is the longest dash-free prefix, ended by the first dash when there is one |
| Strings.BeforeFirstOfJoin | src/services/statsService.js:22 | `split('-')[0]` of `a + "-" + b` is `a` when `a` has no dash |
| Strings.LexIrreflexive | src/services/statsService.js:12 | no key sorts before itself |
| Strings.LexAsymmetric | src/services/statsService.js:12 | two keys never sort before each other |
| Strings.LexTransitive | src/services/statsService.js:12 | the sort order is transitive |
| Strings.LexTotal | src/services/statsService.js:12 | any two distinct keys are ordered one way or the other |
| Strings.LexLessDigits | src/services/statsService.js:12 | among digit strings of equal length, string order is numeric order |
| Strings.SortedKeys | src/services/statsService.js:12 | `Object.keys(..).sort()` lists every key exactly once, in strictly ascending order |
| Strings.SortedUnique | src/services/statsService.js:12 | two strictly ascending listings of the same keys are equal, so the sorted order is unique |
| Strings.TrimStart | src/services/statsService.js:22 | `parseInt` skips exactly the leading white space: everything it drops is white space, and what is left is a suffix that does not start with white space |
| Strings.DigitPrefix | src/services/statsService.js:22 | `parseInt` reads the longest run of leading decimal digits |
| Strings.HexPrefix | src/services/statsService.js:22 | after `0x`, `parseInt` reads a prefix of hexadecimal digits that is the longest one: the next character, if any, is not a hexadecimal digit |
| Strings.ParseInt | src/services/statsService.js:22 | `parseInt(s)` with no radix: skip white space, take an optional sign, read a `0x` hexadecimal run or a decimal run, and give NaN (`None`) when no digit follows |
| Strings.ParseIntOfDigits | src/services/statsService.js:22 | `parseInt` of a nonempty digit string is its decimal value |
| Strings.ParseIntOfNatToString | src/services/statsService.js:22 | `parseInt(String(n))` is `n` |
| Strings.ParseIntNaN | src/services/statsService.js:22 | `parseInt` of text starting with a letter is NaN |
| Database.FormatMonthKey | src/database.js:125-127 | the template `${year}-${month}` with the month padded to two digits, for a month index |
| Database.GetMonthKey | src/database.js:123-128 | getMonthKey: the local month of `new Date(date)` formatted as a key, and `NaN-NaN` for an Invalid Date |
| Database.CountsOf | src/database.js:223-234 | the count map has exactly the counter keys, each mapped to its row's `count` |
| Database.PaddedMonth | src/database.js:126 | the month field has two digits, its value is the month, and it has a leading zero below 10 |
| Database.MonthKeyShape | src/database.js:123-128 | for a four-digit year the key has length 7: four year digits, a dash, and the month 01..12 |
| Database.MonthKeyOrder | src/database.js:123-128 | for four-digit years, string order of keys is chronological order of months, in both directions |
| Database.FreshId | src/database.js:154 | the id given to a new record is one no stored record uses; the model takes one past the largest (see Left out) |
| Database.FirstWithEmail | src/database.js:200-202 | the lookup finds a record with that email and none before it, and finds none iff no record has the email |
| Database.Bumped | src/database.js:130-151 | the counter table after a committed updateMonthlyCount: the key's count (0 when missing) plus `change`, with the key as `month` |
| Database.AfterCreate | src/database.js:153-185 | the tables after a committed createUser: the new active record dated `now`, and its month's counter bumped by 1 |
| Database.AfterDelete | src/database.js:187-221 | the tables after a committed deleteUser: unchanged when no record has the email; otherwise that record removed and, if its stored date is truthy, its month bumped by -1 |
| Database.UtcYear | src/database.js:101-106 | `Date.UTC` reads a year 0..99 as 1900..1999 |
| Database.UtcMonthStart | src/database.js:101-106 | `new Date(Date.UTC(year, monthIndex, 1))`, or an Invalid Date outside the time range |
| Database.InWindow | src/database.js:110-114 | exactly the records whose date is a timestamp in `[lo, hi)`, unchanged |
| Database.DateRangeMonths | src/database.js:99-116 | a record is returned iff its UTC month lies from `startMonth` through `endMonth`, and `endMonth = 12` ends at January of the next year |
| Database.Database.constructor | src/database.js:9 | the store starts with no records, no counters and no cached stats |
| Database.Database.CreateUser | src/database.js:153-185 | a commit adds one active record dated `now` under a fresh id and adds 1 to its month's counter; an abort changes nothing and reports the error |
| Database.Database.DeleteUser | src/database.js:187-221 | not found gives `false` and no change; found and committed gives `true`, removes the record and takes 1 off the month of its stored date, if it has one; an abort changes nothing |
| Database.Database.GetUsersByDateRange | src/database.js:99-116 | an Invalid Date bound is an error; otherwise exactly the records dated in `[Date.UTC(y, s-1, 1), Date.UTC(y, e, 1))` |
| Database.Database.GetMonthlyCounts | src/database.js:223-234 | the loop builds the map from every counter key to its count |
| Database.Database.SaveStats | src/database.js:243-255 | the cached stats entity is overwritten with the payload and the time; records and counters are unchanged |
| Database.Database.GetStats | src/database.js:257-264 | null when nothing is cached, otherwise exactly the payload last saved |
| Database.Database.GetSignupDates | src/database.js:236-241 | as the in-memory store's query answers it: one date per record, each record listed once, each date that record's stored date (the projection query is under Left out) |
| Database.Database.GetCounterKeys | migrate_counters.js:12-14 | every counter key exactly once, in ascending order |
| Database.Database.DeleteCounters | migrate_counters.js:22 | exactly the listed counters are removed; records and cached stats are unchanged |
| Database.Database.SaveCounter | migrate_counters.js:81 | the one row is overwritten; records and cached stats are unchanged |
| Database.Transaction.constructor | src/database.js:174-176 | a new transaction on the store has nothing staged |
| Database.Transaction.GetCounter | src/database.js:135 | the read returns the committed counter row, or nothing when it is missing |
| Database.Transaction.FindUserByEmail | src/database.js:200-202 | the query returns the first record with that email, or nothing |
| Database.Transaction.SaveUser | src/database.js:177 | stages the record's save and cancels a staged delete of it |
| Database.Transaction.DeleteUser | src/database.js:209 | stages the record's delete and cancels a staged save of it |
| Database.Transaction.SaveCounter | src/database.js:144-150 | stages one counter row and nothing else |
| Database.Transaction.Commit | src/database.js:179 | all staged writes apply together, or none do |
| Database.Transaction.Rollback | src/database.js:182 | discards everything staged |
| Database.StageCreate | src/database.js:177-178 | the staged writes add the record and add 1 to its month's counter, and nothing else |
| Database.StageDelete | src/database.js:209-213 | the staged writes remove the record and take 1 off its stored date's month, only when the date is truthy |
| Database.UpdateMonthlyCount | src/database.js:130-151 | stages `old + change`, where a missing or 0 count reads as 0, with `month` equal to the key; nothing else is staged |
| Consistency.BumpedTotal | src/database.js:137-150 | changing one counter by `change` changes the counter total by exactly `change` |
| Consistency.CreateKeepsSum | src/database.js:153-185 | a committed signup keeps the counter total equal to the number of records, and every record dated |
| Consistency.DeleteKeepsSum | src/database.js:187-221 | a committed unsubscribe keeps the counter total equal to the number of records, and every record dated |
| Consistency.RunKeepsSum | src/database.js:153-221 | any sequence of committed or aborted signups and unsubscribes keeps the counter total equal to the number of records |
| Consistency.UndatedDeleteDrifts | src/database.js:211-213 | deleting an undated record leaves the counter total one above the number of records |
| Consistency.CreateKeepsMonths | src/database.js:153-185 | a committed signup keeps every month's counter equal to that month's dated records |
| Consistency.InsertInMonth | src/database.js:178 | a new dated record joins its own month and no other |
| Consistency.DeleteKeepsMonths | src/database.js:187-221 | a committed unsubscribe keeps every month's counter equal to that month's dated records |
| Consistency.RunKeepsMonths | src/database.js:153-221 | any sequence of signups and unsubscribes keeps every month's counter equal to that month's dated records |
| Consistency.EmptyIsConsistent | src/database.js:9 | the empty store satisfies both invariants |
| StatsService.YearOfKey | src/services/statsService.js:22 | `parseInt(key.split('-')[0])`, NaN as `None` |
| StatsService.Kept | src/services/statsService.js:24-27 | the key survives unless `year < 1995 || year > currentYear + 1`, so a NaN year survives |
| StatsService.Label | src/services/statsService.js:32 | `DateTime.fromFormat(key, 'yyyy-MM').toFormat('MMM yyyy')`: month name and year for four digits, a dash and a month 01..12, else "Invalid DateTime" |
| StatsService.KeptKeys | src/services/statsService.js:20-27 | the surviving keys are some of the keys, no more of them |
| StatsService.KeptKeysMembers | src/services/statsService.js:22-27 | a key survives iff it is listed and the filter keeps it |
| StatsService.KeptKeysSorted | src/services/statsService.js:12-27 | filtering a sorted listing leaves it sorted |
| StatsService.KeptCounts | src/services/statsService.js:22-29 | the counters that pass the year filter, with their counts |
| StatsService.BuildStats | src/services/statsService.js:12-44 | the payload is a function of the counts, the current year and the time alone |
| StatsService.PushKept | src/services/statsService.js:20-37 | the `forEach` loop's `labels`, `data` and `total` are the fold of the filter over the sorted keys |
| StatsService.GenerateAndSaveStats | src/services/statsService.js:4-49 | the returned payload is computed from the counters and is exactly the one saved; records and counters are unchanged |
| StatsService.GetCachedStats | src/services/statsService.js:51-53 | null when nothing is cached, otherwise the saved payload |
| StatsService.SeriesAt | src/services/statsService.js:34-35 | the `i`-th label and the `i`-th count belong to the `i`-th key |
| StatsService.AccumulateKept | src/services/statsService.js:20-37 | the loop's result is the labels, counts and sum of exactly the kept keys, in order |
| StatsService.StatsShape | src/services/statsService.js:12-44 | the output keys are ascending and are exactly the kept keys; `labels` and `data` have equal length and are aligned; `total` is the sum of `data` |
| StatsService.DataSum | src/services/statsService.js:36 | the running total equals the sum of the counts of the listed keys |
| StatsService.StatsTotal | src/services/statsService.js:20-37 | `total` is the sum of the kept counters and ignores the dropped ones |
| StatsService.StatsTotalCountsSubscribers | src/services/statsService.js:29-36 | when no key is filtered out, consistent counters make `total` the number of subscribers |
| StatsService.NothingFiltered | src/services/statsService.js:24-27 | when every key passes, the kept counters are all the counters |
| StatsService.YearOfMonthKey | src/services/statsService.js:22 | `parseInt(key.split('-')[0])` recovers the year of a key written by `getMonthKey` |
| StatsService.KeptMonthKey | src/services/statsService.js:22-27 | a month key survives iff `1995 <= year <= currentYear + 1` |
| StatsService.NegativeYearKept | src/services/statsService.js:22-27 | a negative-year key parses to NaN and is kept |
| StatsService.InvalidDateKeyKept | src/services/statsService.js:22-27 | the key `NaN-NaN` of an Invalid Date passes the filter |
| StatsService.InvalidDateLabel | src/services/statsService.js:32 | the key `NaN-NaN` is labelled "Invalid DateTime" |
| StatsService.LabelOfMonthKey | src/services/statsService.js:32 | a four-digit-year key is labelled with the month name and the year |
| StatsService.YearOfDigitsKey | src/services/statsService.js:22 | a key starting with digits and a dash parses to the value of those digits |
| StatsService.FourDigitYear | src/services/statsService.js:22 | a key of four digits and a dash parses to those four digits' value |
| StatsService.ExampleSorted | src/services/statsService.js:12 | the four keys of the unit test sort as 1990-01, 2023-10, 2023-11, 3000-01 |
| StatsService.ExampleLabels | src/services/statsService.js:32 | 2023-10 and 2023-11 are labelled "Oct 2023" and "Nov 2023" |
| StatsService.ExampleKept | src/services/statsService.js:25 | the 2023 keys pass the filter from current year 2022 on |
| StatsService.ExampleDropped | src/services/statsService.js:25 | the 1990 and 3000 keys are dropped up to current year 2998 |
| StatsService.FourKeysMiddleKept | src/services/statsService.js:20-37 | with the outer two of four keys dropped, the output is the middle two keys and their sum |
| StatsService.UnitTestExample | test/unit/services/statsService.test.js:12-34 | the unit test's counters give labels Oct 2023 and Nov 2023, data 10 and 20, and total 30 |
| MigrateCounters.BackfillTime | migrate_counters.js:38-54 | the instant luxon reads: `fromJSDate` for a `Date`, `fromISO` for a string, and `Number(..)` with the heuristic and `fromMillis` otherwise; `None` when the DateTime is invalid |
| MigrateCounters.LuxonYear | migrate_counters.js:55 | luxon's `yyyy`: the year padded to at least four digits, after a minus sign when negative |
| MigrateCounters.LuxonMonthKey | migrate_counters.js:55 | `toFormat('yyyy-MM')` of a local month |
| MigrateCounters.BackfillKey | migrate_counters.js:54-55 | the key a stored date is tallied under, or none when `dt.isValid` is false |
| MigrateCounters.Increment | migrate_counters.js:56 | `aggregator[key] = (aggregator[key] \|\| 0) + 1` |
| MigrateCounters.Tally | migrate_counters.js:35-58 | the aggregator after the `forEach` over the dates |
| MigrateCounters.Normalize | migrate_counters.js:44-50 | numbers above 1e14 are divided by 1000, and others are used as they are |
| MigrateCounters.DeleteAllCounters | migrate_counters.js:12-27 | every existing counter key is deleted exactly once, in consecutive slices of the sorted listing; nothing else changes |
| MigrateCounters.DeleteInBatches | migrate_counters.js:16-24 | the `for` loop deletes the slices of 500 in order and leaves no counter |
| MigrateCounters.BatchStep | migrate_counters.js:20-21 | each pass deletes the next slice and leaves the chunks of the rest |
| MigrateCounters.ChunksFront | migrate_counters.js:21 | the first slice is `slice(0, 500)`, and the remaining slices are those of the keys that follow it |
| MigrateCounters.ChunksFlatten | migrate_counters.js:20-23 | the slices joined in order give back the key listing |
| MigrateCounters.ChunkSizes | migrate_counters.js:19-21 | there are ⌈n/500⌉ nonempty slices of at most 500 keys, and all but the last have exactly 500 |
| MigrateCounters.TallyDates | migrate_counters.js:37-58 | the `forEach` builds the tally of the dates |
| MigrateCounters.TallyStep | migrate_counters.js:54-57 | an invalid date leaves the tally unchanged, and a valid one adds 1 to its own key only |
| MigrateCounters.TallyCount | migrate_counters.js:54-57 | each key's tally is the number of dates filed under it, and keys with none are absent |
| MigrateCounters.TallyTotal | migrate_counters.js:54-57 | the tally adds up to the number of dates minus the skipped ones |
| MigrateCounters.OccurrencesOfListing | migrate_counters.js:31-57 | counting dates in the listing is counting the records filed under a key |
| MigrateCounters.TallyIsBackfill | migrate_counters.js:37-82 | the rows written are one per month with a record, counting that month's records |
| MigrateCounters.TallyIsBackfillAt | migrate_counters.js:54-57 | for one month, the tally and the records agree on presence and count |
| MigrateCounters.TallySummary | migrate_counters.js:83-92 | the tally is the backfill, adds up to the records not skipped, and is at most the record count |
| MigrateCounters.WriteCounters | migrate_counters.js:60-84 | one overwriting row per tallied key, with the count and month set; `totalWritten` is the tally's sum |
| MigrateCounters.SaveRows | migrate_counters.js:66-84 | the `for...of` saves the rows of the listed keys and adds up their counts |
| MigrateCounters.RowsForAll | migrate_counters.js:66-82 | saving the rows of all tallied keys in any order gives one row per key |
| MigrateCounters.RowsForMembers | migrate_counters.js:66-82 | the saved rows are exactly the listed keys, each with the tally as its count and the key as its month |
| MigrateCounters.CountersRoundTrip | migrate_counters.js:70-76 | reading the written rows back gives the tally, and each row's month is its key |
| MigrateCounters.MigrateCounters | migrate_counters.js:7-93 | the counters become exactly the backfill of the records, and the records are untouched; processed is the record count, written is the records with a usable date (at most processed), and the warning is raised iff some record was skipped |
| MigrateCounters.Rebuild | migrate_counters.js:29-92 | from an empty counter table, writes the backfill and the report |
| MigrateCounters.MigrateTwice | migrate_counters.js:7-93 | a second run leaves the same counters and the same report, with nothing counted twice; the records and the cached stats are left as they were |
| MigrateCounters.MicrosecondsNormalise | migrate_counters.js:44-51 | a microseconds number reads as the same instant and month as its milliseconds |
| MigrateCounters.HeuristicOnNumbersOnly | migrate_counters.js:39-51 | a `Date` above 1e14 is read as it is; only a raw number is divided, which `new Date` in the store would not do |
| MigrateCounters.LuxonKeyAgrees | migrate_counters.js:55 | luxon's `yyyy-MM` equals the store's month key iff the year has at least four digits |
| MigrateCounters.TimestampKeyedAlike | migrate_counters.js:39-55 | a `Date` with a year from 1000 on is filed under the key the store would use |
| MigrateCounters.NumberKeyedAlike | migrate_counters.js:44-55 | a millisecond number with a year from 1000 on is filed under the key the store would use |
| MigrateCounters.BackfillIsMonthConsistent | migrate_counters.js:37-82 | when every date is keyed alike, the backfill satisfies the month-by-month invariant of the store |

## Left out

- The `MOCK_GCP` branches of `createUser` and `deleteUser` (src/database.js:5-55, 167-172, 188-193) are left out. They skip counter maintenance, so only the transactional path is modelled.
- `getUserByEmail` and `getUserCount` (src/database.js:77-97) are left out. They are not part of the counter engine. Inside `deleteUser` the same email lookup is modelled as `FirstWithEmail`.
- Concurrency, transaction contention and retries are left out. Each transaction is one atomic step, and the migration is assumed to run with no concurrent signups.
- The real clock, time zones and locale are parameters. `now`, `currentYear` and `generatedAt` are inputs, and month-of-instant comes from the `Calendar` parameter.
- The store's `getMonthKey` uses the local month while `getUsersByDateRange` uses UTC (src/database.js:101-106, 124-126). Both are modelled as written, from separate calendar functions, so this mismatch is kept rather than resolved.
- `JSON.stringify`/`JSON.parse` in `saveStats`/`getStats` are taken as an exact round trip of the payload.
- MigrateCounters.Normalize: the `/1000` division is in floating point in the source, so it can leave a fraction of a millisecond. luxon's `fromMillis` reads the calendar fields of that time value through a JavaScript `Date`, and the ECMAScript TimeClip operation cuts a time value down to a whole millisecond, towards zero. For the positive values past the threshold that is the integer floor, which the model takes. `MicrosecondsNormalise` is a statement about the model only: there, a microsecond reading and its millisecond instant get the same key.
- Luxon's `toFormat('MMM yyyy')` is modelled only for keys of the exact form four digits, dash, two digits (01..12). Anything else is labelled "Invalid DateTime".
- Label formatting in other locales is left out.
- Database.InWindow matches only records whose `date` is a `Date` value. How Datastore applies the range filter at src/database.js:110-114 to a `date` property holding a string, a number or `null` is not modelled.
- Database.Database.GetUsersByDateRange returns the matching records as a map by id. The order of the query result is not modelled.
- Database.Database.GetSignupDates: the order in which the query lists the records is not modelled. The contract fixes only that every record appears once with its stored date.
- Database.Database.GetSignupDates models the query as the in-memory store answers it (src/database.js:29-38): every record with its stored `date` unchanged, a missing one included as `undefined`. The Datastore projection query at src/database.js:238 is answered from the `date` index. It leaves out records with no indexed `date` and may return timestamps in a form other than a `Date` (migrate_counters.js:45-47 guards against microsecond numbers). Neither the omission nor the form of the projected values is modelled.
- MigrateCounters.MigrateCounters: because of the line above, its report counts a record without a `date` as processed and skipped. Against the Datastore projection such a record is not returned at all, so it would count in neither, and the warning would not be raised for it. The counters written are the same either way, since a skipped date adds no counter.
- MigrateCounters.WriteCounters states the final table and the total, not the order of the individual saves. The keys are saved in sorted order, but the order is not visible in the resulting table.
- `deleteUser` files a numeric stored date through `new Date(n)` without the `/1000` heuristic that the backfill applies. For a microsecond number the two disagree. `HeuristicOnNumbersOnly` states this drift, and `BackfillIsMonthConsistent` assumes dates keyed alike.
- Database.FreshId: Datastore allocates some unused id for the incomplete key at src/database.js:154, not necessarily one above the largest. The model's choice of one past the largest fixes which record comes first by key. So when two records share an email, the model's deleteUser always removes the older one, while Datastore may remove either.
- Database.Database.DeleteUser: only the commit decision can fail. The source also throws, after a rollback, when the in-transaction query or the counter read fails (src/database.js:217-219). The contract holds for runs where every other store call succeeds; for an absent email it always reports `false`.
- Database.Database.CreateUser: likewise, only the commit decision can fail. A failing counter read inside the transaction is the same rollback and rethrow as an abort.
- StatsService.GenerateAndSaveStats always succeeds. A rejection by `getMonthlyCounts` or `saveStats` is not modelled, so the contract holds for runs where both store calls succeed.
- MigrateCounters.MigrateCounters: a failed delete batch, query or save stops the script part way, with some counters already deleted or written. The `.catch` at migrate_counters.js:95-97 only logs it. The contract, the full backfill, holds for runs where every store call succeeds; partial runs are not modelled.
- `src/routes.js:53` calls `createUser(email, referral, notes)`, but the function takes `(email, notes)`. The model follows the database function.
- Logging (`console.log`/`console.warn`) is left out. It is replaced by the `Report` value.
