# Personal-finance API routes, modelled in Dafny

This project models the core of a small personal-finance web application. Signed-in users keep categories and transactions, each of type INCOME or EXPENSE, through four HTTP route handlers:

- `GET /api/summary?month=YYYY-MM` returns the month's total income, total expense and balance, and the five expense categories with the largest totals. Categories are named through a lookup restricted to the user. A category that cannot be resolved is shown as `"(Unknown)"`.
- `POST /api/transactions` records a transaction. The body is checked field by field. The category must belong to the user and have the same type. `GET /api/transactions?month=YYYY-MM` lists the user's transactions of that UTC month, newest first.
- `POST /api/categories` creates a category with its name trimmed. The key (user, name, type) is unique: a clash is answered 409. `GET /api/categories?type=...` lists the user's categories, optionally of one type, ordered by type and then by name.
- `POST /api/categories/seed` gives the user ten default EXPENSE and six default INCOME categories. Defaults whose key is already taken are skipped. It reports how many rows were created.

## Structure

| file | module | what it holds |
|---|---|---|
| `common.dfy` | `Common` | options, the INCOME/EXPENSE kind, the tagged response, the session check, request bodies and fields, decimal digits |
| `jsstring.dfy` | `JsString` | JavaScript string length in UTF-16 code units, and `String.prototype.trim` |
| `calendar.dfy` | `Calendar` | `Date.UTC` as day arithmetic (ECMA-262 DayFromYear and MakeDay), checked against a year-by-year count |
| `month_query.dfy` | `MonthQuery` | the `^\d{4}-\d{2}$` month parameter and its half-open UTC range, shared by the summary and the transaction listing |
| `sorting.dfy` | `Sorting` | a generic sort under a total preorder, which stands for the database's `orderBy` |
| `db.dfy` | `Db` | the category and transaction rows, the integrity rules, and the `Database` object holding both tables |
| `summary.dfy` | `SummaryRoute` | the monthly summary |
| `transactions.dfy` | `TransactionsRoute` | creating and listing transactions |
| `categories.dfy` | `CategoriesRoute` | creating and listing categories |
| `seed.dfy` | `SeedRoute` | the default categories |

The database is a `class Database` with two sequence fields. The POST handlers are methods that may modify it. Each is tied to a pure outcome function, and each keeps the invariant `Valid()`:

- the category key is unique;
- row ids are serial;
- every transaction has a positive amount, a note of at most 200 code units, and a category of its own user and type.

The GET handlers only read the tables, so they are functions reading the object.

### Where the code's behaviour is surprising

- **Month numbers.** The month number is not checked against 1..12: any two digits pass the pattern, and `Date.UTC` rolls over. So "2026-13" is January 2027 (`MonthQuery.ExampleMonthThirteen`), and "2026-00" is December 2025. `Date.UTC` also reads years 0000-0099 as 1900-1999, so "0050-03" is March 1950.
- **String lengths.** Lengths for `min`, `max` and the note limit are counted as JavaScript does, in UTF-16 code units, not in characters.
- **The 409 answer.** The code answers 409 for any failure of `create`. The model produces it exactly when the unique key is taken.

## Model

| member | source | states |
|---|---|---|
| Common.ParseKind | app/api/transactions/route.ts:9 | only the exact spellings "INCOME" and "EXPENSE" are accepted, and the accepted kind spells its input |
| Common.KindNameRoundTrip | app/api/categories/route.ts:9 | every kind's spelling parses back to that kind |
| Common.SessionUser | app/api/transactions/route.ts:26-28 | a user exists exactly when the session carries a non-empty id, and it is that id |
| JsString.Utf16Length | app/api/transactions/route.ts:12 | a string is at least as long in code units as in code points and at most twice as long, and exactly as long when every code point is below U+10000 |
| JsString.TrimCutsWhitespace | app/api/categories/route.ts:8 | the trimmed name is a contiguous slice of the input, and everything cut off before and after it is white space |
| JsString.TrimOfDecomposition | app/api/categories/route.ts:8 | trimming white space, then some text that neither starts nor ends with white space, then white space, gives exactly that text |
| JsString.TrimEnds | app/api/categories/route.ts:8 | a non-empty trimmed name neither starts nor ends with white space |
| JsString.TrimEmptyIffWhitespace | app/api/categories/route.ts:8 | trimming yields the empty string exactly when the input is all white space |
| JsString.TrimIdempotent | app/api/categories/route.ts:8 | trimming twice is trimming once |
| JsString.TrimOfPadded | app/api/categories/route.ts:8 | white space added at either end does not change the trimmed name |
| Calendar.DayFromYearCountsDays | app/api/summary/route.ts:30-31 | the closed form of DayFromYear equals the count of days in the whole years from 1970 |
| Calendar.MakeDayIsCivil | app/api/summary/route.ts:30-31 | MakeDay of a year and a month number, roll-over included, is the first day of the calendar month it denotes |
| Calendar.MakeDayNextMonth | app/api/summary/route.ts:30-31 | the first day of the next month number is this month's first day plus this month's length |
| Calendar.MakeDayWithinYear | app/api/summary/route.ts:30-31 | the first of the month MakeDay lands on, and that whole month, lie inside the normalised year |
| Calendar.MakeDayYearRoll | app/api/summary/route.ts:30-31 | adding twelve to the month number is the same as adding one to the year |
| Calendar.UtcYear | app/api/summary/route.ts:30-31 | year arguments 0..99 are read as 1900..1999 and other years are kept |
| MonthQuery.ParseMonth | app/api/summary/route.ts:7-9 | a string is accepted exactly when it matches `^\d{4}-\d{2}$`, and the parsed year is at most 9999 and the month number at most 99 |
| MonthQuery.ParseFormatRoundTrip | app/api/summary/route.ts:26-28 | every year up to 9999 and month number up to 99 has a spelling that parses back to it |
| MonthQuery.FormatParseRoundTrip | app/api/summary/route.ts:26-28 | an accepted string is the spelling of what it parses to, so distinct strings denote distinct values |
| MonthQuery.ResolveMonth | app/api/summary/route.ts:21-31 | the query yields a range exactly when the parameter is present and matches the pattern |
| MonthQuery.MonthRangeIsOneMonth | app/api/summary/route.ts:30-31 | the range starts at UTC midnight on the first of the denoted month and lasts exactly that month's days |
| MonthQuery.CalendarMonthRange | app/api/summary/route.ts:30-31 | for month numbers 01..12 the range is that month of that (shifted) year |
| MonthQuery.MonthOverflowRollsYear | app/api/summary/route.ts:30-31 | month number m+12 of a year is month m of the next year, except across 0099/0100 |
| MonthQuery.MonthZeroIsPreviousDecember | app/api/summary/route.ts:30-31 | month number 00 is December of the previous year |
| MonthQuery.TwoDigitYearShift | app/api/summary/route.ts:30 | years 0000..0099 give the ranges of 1900..1999 |
| MonthQuery.AcceptedMonthWithinTimeClip | app/api/summary/route.ts:30-31 | every accepted month gives a non-empty range inside the time range of dates, so it never becomes NaN |
| MonthQuery.ExampleSpellings | app/api/summary/route.ts:26-28 | "2026-02", "2026-13", "2026-00", "0050-03" and "2024-02" parse to the expected year and month numbers |
| MonthQuery.ExampleFebruary2026 | app/api/summary/route.ts:30-31 | "2026-02" is the range from 2026-02-01T00:00Z to 2026-03-01T00:00Z, in milliseconds |
| MonthQuery.ExampleMonthThirteen | app/api/summary/route.ts:30-31 | "2026-13" is the range of January 2027 |
| MonthQuery.ExampleMonthZero | app/api/summary/route.ts:30-31 | "2026-00" is the range of December 2025 |
| MonthQuery.ExampleTwoDigitYear | app/api/summary/route.ts:30-31 | "0050-03" is the range of March 1950 |
| MonthQuery.ExampleLeapFebruary | app/api/summary/route.ts:30-31 | "2024-02" is the 29-day range of February 2024 |
| MonthQuery.ExampleRejected | app/api/summary/route.ts:8 | a one-digit month, another separator, leading text and a missing parameter are rejected |
| Sorting.SortBy | app/api/summary/route.ts:54 | the result is sorted under the given total preorder and is a permutation of the input |
| Sorting.PermutationMembers | app/api/summary/route.ts:54 | a permutation has the same members |
| Sorting.PermutationKeepsKeysDistinct | app/api/summary/route.ts:50-56 | reordering keeps keys distinct |
| Db.FindCategory | app/api/transactions/route.ts:44-47 | the found row is in the table with that id and user; no row matches when nothing is found |
| Db.FindCategoryUnique | app/api/transactions/route.ts:44-47 | since category ids are distinct, a user's own row is always the one found by its id |
| Db.FindCategoryAppend | app/api/transactions/route.ts:44-47 | appending a row does not change what an existing lookup finds |
| Db.AddCategoryKeepsTables | app/api/categories/route.ts:59-62 | a category whose key is free, added under the next id, keeps every table invariant |
| Db.AddTransactionKeepsTables | app/api/transactions/route.ts:51-63 | a valid transaction added under the next id keeps every table invariant |
| Db.Database.constructor | app/api/transactions/route.ts:5 | the empty database keeps the invariants |
| SummaryRoute.Select | app/api/summary/route.ts:35-42 | a row is selected exactly when it belongs to the user, has the kind, and its date lies in the range |
| SummaryRoute.AggregateSum | app/api/summary/route.ts:37 | the `_sum` is null exactly when no rows are selected |
| SummaryRoute.AggregateIsTotal | app/api/summary/route.ts:34-46 | `_sum ?? 0` over the selected rows equals the reference total of the user's rows of the kind in the range |
| SummaryRoute.TotalZeroIffNoRows | app/api/summary/route.ts:45-46 | with positive amounts, a total is non-negative and is zero exactly when no row is selected |
| SummaryRoute.AddToGroups | app/api/summary/route.ts:50-53 | booking a row adds its category to the group ids |
| SummaryRoute.AddToGroupsBooksRow | app/api/summary/route.ts:50-53 | booking a row keeps group ids distinct, adds its amount to its own group only, and adds it to the grand total |
| SummaryRoute.GroupByCategory | app/api/summary/route.ts:50-53 | one group per category of the rows, no category twice, each group's total is the category's sum, and the totals add up to the sum of all rows |
| SummaryRoute.GroupTotalOfMember | app/api/summary/route.ts:50-53 | a group's stored total is the total found by its id |
| SummaryRoute.ByTotalDescIsTotalPreorder | app/api/summary/route.ts:54 | ordering by total descending is a total preorder, ties unresolved |
| SummaryRoute.Ranked | app/api/summary/route.ts:54 | the groups sorted by total descending, as a permutation |
| SummaryRoute.TopGroupsRanked | app/api/summary/route.ts:54-55 | the top groups are at most five, distinct, in descending order, all from the input, and every group left out is no larger than the last one kept |
| SummaryRoute.NamedCategories | app/api/summary/route.ts:60-63 | the lookup returns exactly the user's categories whose id is among the top ids |
| SummaryRoute.MapGet | app/api/summary/route.ts:64 | a name is found exactly when some looked-up row has that id, and it is that row's name |
| SummaryRoute.ResolveName | app/api/summary/route.ts:66-70 | an id the user owns no category for gets "(Unknown)"; otherwise it gets a name of the user's category with that id |
| SummaryRoute.ResolveNameIsOwnCategory | app/api/summary/route.ts:59-70 | with distinct category ids, the name is exactly that of the user's category found by the id, or "(Unknown)" |
| SummaryRoute.ToTopCategories | app/api/summary/route.ts:66-70 | one entry per top group, in the same order, with the same ids and totals |
| SummaryRoute.CategorySumIsCategoryExpense | app/api/summary/route.ts:52 | a group's sum over the selected rows is the reference expense total of that category in the month |
| SummaryRoute.AbsentCategorySumIsZero | app/api/summary/route.ts:50-53 | a category with no rows sums to zero |
| SummaryRoute.PositiveCategorySum | app/api/summary/route.ts:50-53 | with positive amounts, a category that has rows has a positive sum |
| SummaryRoute.NonNegativeCategorySum | app/api/summary/route.ts:50-53 | with positive amounts, no category sum is negative |
| SummaryRoute.TopExpenseGroupsTotals | app/api/summary/route.ts:50-56 | each top group's total is its category's reference expense total in the month |
| SummaryRoute.TopExpenseGroupsLeaveOutSmaller | app/api/summary/route.ts:50-56 | a category left out of the top list spent no more than the fifth listed one when five are listed, and nothing when fewer are listed |
| SummaryRoute.TopCategoriesNamed | app/api/summary/route.ts:59-70 | every entry's name is that of the user's category with its id, or "(Unknown)" |
| SummaryRoute.TopCategoriesRanked | app/api/summary/route.ts:50-70 | the top categories are at most five, distinct, correctly totalled and named, descending, and no omitted category spent more |
| SummaryRoute.SummarizeIsCorrect | app/api/summary/route.ts:34-79 | the summary carries the month and range, the reference totals, balance = income - expense, and ranked top categories |
| SummaryRoute.Get | app/api/summary/route.ts:15-80 | 401 without a user; 422 with issue path "month" for a bad month; otherwise 200 with the summary's promises |
| TransactionsRoute.AmountIssues | app/api/transactions/route.ts:8 | no issue exactly for a positive integer; NaN gives one issue; each of int() and positive() that fails adds one |
| TransactionsRoute.TxIssues | app/api/transactions/route.ts:7-13 | the issue list is empty exactly when the body is valid, and names each failing field |
| TransactionsRoute.ParseTx | app/api/transactions/route.ts:33-41 | the parse succeeds exactly for valid input; the data is a positive integer amount, the kind, the date, a non-empty category id, and a note that is null when absent and at most 200 units otherwise |
| TransactionsRoute.CreateOutcome | app/api/transactions/route.ts:25-66 | 401, 400 for an unusable body, 422 with the issues, and on success 201 with the next row id, the user, and a row that satisfies the transaction invariant |
| TransactionsRoute.CreateOutcomeOnValidInput | app/api/transactions/route.ts:43-65 | a valid body gets 404 when the user owns no category of that id and 400 on a type mismatch, and any row it creates carries the request's values |
| TransactionsRoute.CreateOutcomeCreates | app/api/transactions/route.ts:41-65 | a valid body naming the user's own category of the same type gets 201 with the next id, the user and the request's values |
| TransactionsRoute.Post | app/api/transactions/route.ts:25-66 | answers as CreateOutcome, keeps the invariants, leaves categories alone, and appends the row only on success |
| TransactionsRoute.MonthRows | app/api/transactions/route.ts:92-93 | a row is listed exactly when it is the user's and its date is in the range |
| TransactionsRoute.ByDateDescIsTotalPreorder | app/api/transactions/route.ts:94 | newest-first is a total preorder |
| TransactionsRoute.ListMonth | app/api/transactions/route.ts:92-98 | the listing is a permutation of the user's rows in the month, with dates non-increasing |
| TransactionsRoute.List | app/api/transactions/route.ts:68-101 | 401, 422 with issue path "month", or 200 with exactly the user's rows of the month, newest first |
| TransactionsRoute.KindSumPermutation | app/api/transactions/route.ts:92-98 | summing by type does not depend on row order |
| TransactionsRoute.KindSumOfMonthRows | app/api/transactions/route.ts:92-93 | the listed rows of a type sum to the reference total of that type in the month |
| TransactionsRoute.ListAgreesWithSummary | app/api/transactions/route.ts:84-93 | the listing and the summary accept the same requests, read the same range, and the listed rows of each type add up to the summary's totals |
| CategoriesRoute.CategoryIssues | app/api/categories/route.ts:7-10 | no issue exactly when name and type are valid; "name" and "type" each appear exactly when that field fails |
| CategoriesRoute.ParseCategory | app/api/categories/route.ts:52-57 | the parsed name is the trimmed input: non-empty, at most 40 units, with no white space at either end |
| CategoriesRoute.NameRejectedIffBlankOrLong | app/api/categories/route.ts:8 | a name is rejected exactly when it is all white space or its trimmed form is over 40 units |
| CategoriesRoute.PaddedNameIsSameName | app/api/categories/route.ts:8 | a name padded with white space parses to the same category |
| CategoriesRoute.CreateOutcome | app/api/categories/route.ts:44-68 | 401, 400, 422 with the issues; 409 exactly when the key is taken; otherwise 201 with the next id and a key newly present |
| CategoriesRoute.CreateOutcomeCreates | app/api/categories/route.ts:59-66 | a valid body whose key is free gets 201 with the next id, the user, the trimmed name and the type |
| CategoriesRoute.Post | app/api/categories/route.ts:44-68 | answers as CreateOutcome, keeps the invariants, leaves transactions alone, and appends only on success |
| CategoriesRoute.RepeatedCreateConflicts | app/api/categories/route.ts:59-67 | repeating a successful create is answered 409 |
| CategoriesRoute.SameNameForBothTypes | app/api/categories/route.ts:59-65 | one name can be created once as INCOME and once as EXPENSE |
| CategoriesRoute.ParseTypeQuery | app/api/categories/route.ts:12-14 | a missing parameter means every type, a valid spelling selects that type, anything else is rejected |
| CategoriesRoute.UserCategories | app/api/categories/route.ts:33-37 | exactly the user's categories of the requested type |
| CategoriesRoute.NameLeTotal | app/api/categories/route.ts:38 | any two names are ordered one way or the other |
| CategoriesRoute.NameLeTransitive | app/api/categories/route.ts:38 | the name order is transitive |
| CategoriesRoute.NameLeAntisymmetric | app/api/categories/route.ts:38 | names ordered both ways are equal |
| CategoriesRoute.ByTypeThenNameIsTotalPreorder | app/api/categories/route.ts:38 | ordering by type, then by name, is a total preorder |
| CategoriesRoute.NoTiesAmongUserRows | app/api/categories/route.ts:38 | with unique keys, two rows of one user are never tied, so the listing order is determined |
| CategoriesRoute.ListSorted | app/api/categories/route.ts:33-39 | sorted by type then name, a permutation of the user's rows, with the same members |
| CategoriesRoute.List | app/api/categories/route.ts:20-42 | 401, 422 with issue path "type", or 200 with exactly the user's rows of the type, INCOME first, names ascending |
| SeedRoute.DefaultsShape | app/api/categories/seed/route.ts:6-32 | sixteen defaults: ten EXPENSE and six INCOME, "Lainnya" under both types, no default twice |
| SeedRoute.SeedKeys | app/api/categories/seed/route.ts:34-38 | after seeding, a key is taken exactly when it was taken before or is one of the user's defaults |
| SeedRoute.SeedCoversDefaults | app/api/categories/seed/route.ts:34-38 | every default of the user is present after seeding |
| SeedRoute.SeedKeepsRows | app/api/categories/seed/route.ts:34-38 | existing rows stay unchanged and in place; each new row is one of the user's defaults under its serial id |
| SeedRoute.SeedCount | app/api/categories/seed/route.ts:35-42 | the number of rows added is the number of defaults whose key was free |
| SeedRoute.SeedPresentIsNoOp | app/api/categories/seed/route.ts:37 | when every default is present, seeding changes nothing and counts zero |
| SeedRoute.SeedIdempotent | app/api/categories/seed/route.ts:34-43 | seeding twice is seeding once, and the second time creates nothing |
| SeedRoute.CreateMany | app/api/categories/seed/route.ts:35-38 | the table becomes the reference seeding of the list, other tables untouched, and the returned count is the number of rows added |
| SeedRoute.Post | app/api/categories/seed/route.ts:22-44 | 401 with no change, or the defaults inserted in order with duplicates skipped, and createdCount equal to the rows added |

## Left out

- Authentication (`getServerSession`, the credentials provider, the JWT and session callbacks) is not modelled. A session is an optional user id supplied by the caller.
- The register route and the Prisma client set-up are not part of this model.
- The attachment of `category: { id, name, type }` to transaction rows (`include`) is left out. Responses carry the bare rows.
- JSON encoding of responses is left out, including ISO date strings, the `{ message, issues }` envelope and zod's issue objects. Issues are modelled as their field paths in schema order.
- Request parsing is given as input: the body is a `Body` value and the query parameters are optional strings. `z.coerce.number()` is given as the resulting JavaScript number, and `z.coerce.date()` as the resulting time value or an Invalid Date. The coercions themselves (`Number(x)`, `new Date(x)`) are not modelled.
- Transaction amounts are unbounded integers. The database's integer column width and JavaScript's 2^53 limit are not modelled.
- The two aggregates are issued concurrently with `Promise.all`. Their order does not matter because they only read. The model evaluates them one after the other.
- The database generates row ids; the model numbers them serially as "c<n>" and "t<n>". Creation timestamps are not modelled.
- The database's collation and enum order are not known. The listings use code-point order for names and the order INCOME before EXPENSE of the schema's enum. Ties in the expense ranking are left unresolved.
- `CategoriesRoute.CreateOutcome`: a `create` failure other than the unique key, such as a lost connection, is not modelled. The source answers 409 for any error there.
- Database and network failures, which end each request with an error, are not modelled.
- Concurrent requests are not modelled. Each handler runs in isolation against one database state.
- Strings are sequences of Unicode scalar values, so a JSON body carrying a lone UTF-16 surrogate, which JavaScript accepts and counts as one code unit, cannot be represented; `JsString.Utf16Length` covers only well-formed strings.
