# ShweBudget ledger and analytics core, in Dafny

ShweBudget is a personal budgeting app. Users record transactions in kyat (MMK) or in one
of three foreign currencies (THB, USD, SGD). Each transaction is an Income, an Expense or
a Saving. The app shows:

- a dashboard summary with totals converted to kyat at the current market rates;
- an analytics screen with a time series of Income, Expense, Saving and Net, bucketed by
  day, month or year;
- an expense breakdown by category;
- a list of years to choose from.

This project models that pure core:

- the entities: transaction, currency, type, rate table (module `Types`);
- currency normalisation (`Normalize`);
- the ledger's add and delete operations and the seed data (`Ledger`);
- the dashboard summary (`Summary`);
- the chart series, its laws and the key strings it sorts by (`Chart`, `ChartLaws`, `KeyText`);
- the category breakdown and its display order (`Categories`);
- the year list (`Years`).

Money is exact `real` arithmetic. A transaction date is a valid calendar date with a
year from 1000 to 9999, so its `YYYY-MM-DD` text and its fields determine each other.

Each operation is proved against an independent reference definition:

- the summary loop against per-kind totals (`TypeTotal`);
- every chart bucket against the totals over the transactions falling in it (`Expected`);
- every category entry against the total over its own expenses (`WithCategory`);
- sorted outputs as permutations of their inputs, in order.

## Model

| member | source | states |
|---|---|---|
| Types.DaysInMonth | types.ts:9 | The length of a month of a `YYYY-MM-DD` date is between 28 and 31 days, and is below 30 exactly for February. |
| Normalize.ToMMK | components/Analytics.tsx:24-29 | Kyat pass through unchanged. A THB, USD or SGD amount is multiplied by its own rate. A non-negative amount at non-negative rates stays non-negative. |
| Normalize.GoldNeverNormalises | types.ts:17-22 | The gold price in the rate table never affects the kyat value of a transaction. |
| Summary.InlineValue | App.tsx:116-120 | The summary's inline chain of three currency tests agrees with `toMMK` for every currency. |
| Summary.CalculateSummary | App.tsx:111-128 | The one-pass loop returns, for each type, the kyat total of that type's transactions. The balance is income minus expense; saving is left out of it. |
| Summary.TotalAppend | App.tsx:116-125 | Appending a transaction raises its own type's total by its kyat value and leaves the other totals alone. |
| Summary.TotalConcat | App.tsx:116-125 | The totals of two ledgers placed end to end are the sums of their totals. |
| Summary.TotalNonNegative | App.tsx:111-125 | With non-negative amounts and rates, every total is non-negative. |
| Summary.KindsPartition | App.tsx:122-124 | Each transaction feeds exactly one accumulator, so income + expense + saving is the kyat value of the whole ledger. |
| Summary.SavingLeavesBalance | App.tsx:124-127 | A new saving entry raises the saving total by its kyat value and leaves the balance unchanged. |
| Summary.SeedSalary | App.tsx:12 | The seed salary of 18000 THB at 124 kyat per baht is worth 2,232,000 kyat. |
| Summary.SeedSummary | App.tsx:11-25 | On the seed ledger at the seed rates, income is 4,464,000, expense 917,600 and saving 3,720,000 kyat. |
| Ledger.AddTransaction | App.tsx:102-104 | The ledger grows by one entry: the new transaction comes last and every old entry keeps its place. |
| Ledger.DeleteTransaction | App.tsx:106-108 | Exactly the entries with another id survive, each with its multiplicity. The ledger never grows. |
| Ledger.DeleteAbsentId | App.tsx:106-108 | Deleting an id that no entry carries leaves the ledger unchanged; it is not an error. |
| Ledger.DeleteIdempotent | App.tsx:106-108 | Deleting the same id twice has the effect of deleting it once. |
| Ledger.DeleteConcat | App.tsx:106-108 | Deletion filters entry by entry, so the survivors keep their relative order. |
| Ledger.DeleteAfterAdd | App.tsx:102-108 | Deleting by the id of the entry just added undoes the addition, along with any older entries that share that id. |
| Ledger.DeleteCommutes | App.tsx:106-108 | Deletions by two ids may be done in either order. |
| Ledger.InitialData | App.tsx:10-17 | The six seed transactions, field for field: two THB salaries, two savings and two expenses in September and October 2024. |
| Ledger.InitialRates | App.tsx:19-24 | The seed rates: 124 kyat per baht, 4500 per dollar, 3300 per Singapore dollar, 6500000 for gold. |
| Ledger.SeedWellFormed | App.tsx:11-25 | The seed ledger's ids are distinct and its amounts non-negative, and the seed rates are non-negative. |
| Chart.KeyOf | components/Analytics.tsx:49-58 | A bucket key keeps the date's year always, its month unless the view is yearly and its day only in the daily view; the dropped components, and only those, are 0. |
| Chart.KeyOfMonotone | components/Analytics.tsx:49-58 | Coarsening a date into its bucket keeps date order, so buckets sorted by key follow the calendar. |
| Chart.InScope | components/Analytics.tsx:44 | The yearly view admits every transaction; the daily and monthly views admit exactly those dated in the selected year. |
| Chart.SharedBucketIff | components/Analytics.tsx:49-58 | Two dates share a daily bucket exactly when they are equal. They share a monthly bucket exactly when year and month agree, and a yearly bucket exactly when the years agree. |
| Chart.Scoped | components/Analytics.tsx:44 | A transaction takes part exactly when the view is yearly or the transaction falls in the selected year. The yearly view keeps the whole ledger. |
| Chart.ScopedAppend | components/Analytics.tsx:40-44 | Appending a transaction extends the scope by it exactly when it is in scope. |
| Chart.WithKey | components/Analytics.tsx:49-62 | A bucket's group is exactly the transactions whose date maps to that bucket's key. |
| Chart.Credit | components/Analytics.tsx:66-77 | A transaction's kyat value goes into the column of its type. Income raises Net, Expense lowers it, Saving leaves it unchanged. |
| Chart.Upsert | components/Analytics.tsx:62-77 | A bucket is created on the first sight of its key, and keys stay unique. Each column sum grows by exactly the new transaction's contribution. |
| Chart.ExpectedStep | components/Analytics.tsx:62-77 | One more transaction changes only its own bucket's reference value, and credits it there. |
| Chart.GroupCredit | components/Analytics.tsx:66-77 | Crediting a bucket with a transaction gives the reference totals of its group extended by that transaction. |
| Chart.UpsertCorrect | components/Analytics.tsx:62-77 | Buckets correct for a ledger, after one upsert, are correct for the ledger extended by one transaction. |
| Chart.LedgerKeysAppend | components/Analytics.tsx:49-58 | Appending a transaction adds exactly its own bucket's key. |
| Chart.EmptyGroupOutsideKeys | components/Analytics.tsx:62-64 | A key that no transaction maps to has an empty group, so a new bucket starts from zero. |
| Chart.Accumulate | components/Analytics.tsx:38-78 | The accumulation makes one bucket per key seen and no other. Its column sums equal the per-type totals. |
| Chart.AccumulateCorrect | components/Analytics.tsx:38-78 | Each accumulated bucket holds the per-type totals of exactly its own transactions, and its Net is income minus expense. |
| Chart.InsertByKey | components/Analytics.tsx:80 | Insertion adds the bucket and keeps all the others. Keys and column sums grow by that bucket's. |
| Chart.InsertByKeyPermutes | components/Analytics.tsx:80 | Insertion adds exactly one bucket and loses none, as multisets. |
| Chart.KeyLessTransitive | components/Analytics.tsx:80 | Key order is transitive. |
| Chart.AscendingCons | components/Analytics.tsx:80 | A bucket below every key of an ascending list may lead it. |
| Chart.InsertKeepsAbove | components/Analytics.tsx:80 | Inserting a bucket above a bound into a list above that bound keeps the list above it. |
| Chart.InsertKeepsAscending | components/Analytics.tsx:80 | Inserting a bucket with a new key into an ascending list keeps it ascending. |
| Chart.SortByKey | components/Analytics.tsx:80 | The sort permutes the buckets, and its output ascends strictly by key when the keys are unique. |
| Chart.ChartData | components/Analytics.tsx:37-81 | Keys ascend strictly, with one bucket for each key of an in-scope transaction and none for an empty period. Each bucket equals the reference totals of its transactions, and Net is income minus expense. The columns add up to the totals in scope. |
| ChartLaws.NetSumIsBalance | components/Analytics.tsx:66-77 | When each bucket's Net is income minus expense, the sum of Net over the buckets is total income minus total expense. |
| ChartLaws.YearlyMatchesSummary | components/Analytics.tsx:44 | The yearly view's columns add up to the dashboard's income, expense and saving, and its Net adds up to the dashboard balance. |
| ChartLaws.ScopedIgnores | components/Analytics.tsx:44 | A transaction outside the selected year does not join the daily or monthly scope. |
| ChartLaws.OutOfScopeIgnored | components/Analytics.tsx:44 | Adding a transaction outside the selected year leaves the daily and monthly views unchanged. |
| ChartLaws.NetStep | components/Analytics.tsx:66-77 | One more transaction moves only its own bucket's Net: up by its value for Income, down for Expense, not at all for Saving. |
| ChartLaws.SavingLeavesNet | components/Analytics.tsx:74-77 | A saving raises its bucket's Saving column by its kyat value and leaves every Net unchanged. |
| ChartLaws.SalaryMonthScenario | components/Analytics.tsx:37-81 | One 18000 THB salary dated 2024-09-15 gives the 2024 monthly view a single bucket, 2024-09, with Income and Net 2,232,000. |
| KeyText.Pad | components/Analytics.tsx:53 | Zero padding renders a number in exactly the requested width. |
| KeyText.KeyString | components/Analytics.tsx:49-58 | A key string is 10, 7 or 4 characters long for a daily, monthly or yearly key. |
| KeyText.StrLessConcat | components/Analytics.tsx:80 | Between strings with prefixes of equal length, the prefixes decide the order unless they are equal. |
| KeyText.PadOrder | components/Analytics.tsx:53 | Zero-padded numbers of one width compare as strings the way the numbers compare, and equal strings mean equal numbers. |
| KeyText.Dashed | components/Analytics.tsx:53 | Joining fields of equal width with a dash keeps field-by-field order and equality. |
| KeyText.KeyStringFacts | components/Analytics.tsx:49-58 | Key strings compare, and are equal, exactly as the key triples do. |
| KeyText.MonthlyFacts | components/Analytics.tsx:53 | Monthly key strings compare, and are equal, exactly as the (year, month) pairs do. |
| KeyText.DailyFacts | components/Analytics.tsx:50 | Daily key strings compare, and are equal, exactly as the dates do. |
| KeyText.KeyStringInjective | components/Analytics.tsx:49-58 | Two dates get the same key string exactly when they fall in the same bucket. |
| KeyText.KeyStringOrder | components/Analytics.tsx:80 | Sorting buckets by key string is sorting them by key triple. |
| KeyText.ChartRowsAscendAsStrings | components/Analytics.tsx:49-80 | Consecutive chart rows ascend as key strings: any date of an earlier row renders to a string that sorts before any date of a later row. |
| Categories.ExpensesOf | components/Analytics.tsx:87 | Exactly the expense transactions are kept. |
| Categories.ScopedExpenses | components/Analytics.tsx:86-88 | Exactly the expenses in scope are kept: those of the selected year, or all of them in the yearly view. |
| Categories.WithCategory | components/Analytics.tsx:91 | A category's group is exactly the transactions that carry that category name. |
| Categories.AddToCategory | components/Analytics.tsx:89-92 | Adding a transaction makes its category one of the names, adds no other name, and raises the sum of values by the transaction's kyat value. |
| Categories.AddToCategoryUnique | components/Analytics.tsx:91 | An object has at most one entry per key, so adding to a breakdown with unique names keeps the names unique. |
| Categories.AccumulateCategories | components/Analytics.tsx:85-94 | One entry per category used. The values add up to the kyat value of the expenses. |
| Categories.WithCategoryAppend | components/Analytics.tsx:91 | Appending a transaction extends exactly its own category's group. |
| Categories.GrandTotalAppend | components/Analytics.tsx:90-91 | The kyat value of a ledger grows by exactly the value of an appended entry. |
| Categories.CategoryStep | components/Analytics.tsx:89-91 | One more expense raises its own category's total by its kyat value and leaves every other category's total unchanged. |
| Categories.MatchOthers | components/Analytics.tsx:91 | Entries for categories other than the new transaction's keep their values. |
| Categories.AddNewCorrect | components/Analytics.tsx:91 | The first expense of a category starts that category's entry at its own kyat value. |
| Categories.AddFirstCorrect | components/Analytics.tsx:91 | Adding to a category that already has an entry updates that entry, and every entry stays correct. |
| Categories.AddPastFirstCorrect | components/Analytics.tsx:91 | An entry of another category stays correct when placed in front of correct entries. |
| Categories.AddToCategoryCorrect | components/Analytics.tsx:89-92 | Entries correct for a ledger, after one addition, are correct for the ledger extended by one transaction. |
| Categories.AccumulateStep | components/Analytics.tsx:89-92 | One accumulation step keeps each entry equal to its category's kyat total. |
| Categories.AccumulateCategoriesCorrect | components/Analytics.tsx:85-94 | Each entry's value is the kyat total of exactly its own category's transactions. |
| Categories.ExpensesAppend | components/Analytics.tsx:87 | Appending a transaction extends the expenses by it exactly when it is an expense. |
| Categories.GrandTotalStep | components/Analytics.tsx:88-91 | A conditional append raises the kyat value by the new entry's value exactly when the entry is kept. |
| Categories.TypeTotalStep | components/Analytics.tsx:88-91 | A conditional append raises the Expense total by the new entry's contribution exactly when the entry is kept. |
| Categories.ScopedExpensesAppend | components/Analytics.tsx:86-88 | Appending a transaction extends the in-scope expenses by it exactly when it is an expense in scope. |
| Categories.ScopedExpensesTotal | components/Analytics.tsx:86-91 | Summing all expenses in scope gives the chart's Expense total over the same scope. |
| Categories.CategoryData | components/Analytics.tsx:84-95 | There is exactly one entry per category of an in-scope expense. Each holds that category's in-scope expense total, and the values add up to the in-scope Expense total. |
| Categories.InsertByValue | components/Analytics.tsx:238 | Insertion adds the entry, keeps all the others and preserves descending order. |
| Categories.InsertByValuePermutes | components/Analytics.tsx:238 | Insertion adds exactly one entry and loses none, as multisets. |
| Categories.SortByValue | components/Analytics.tsx:238 | The list is a permutation of the breakdown, largest value first. |
| LocalTime.PrevDay | components/Analytics.tsx:41-42 | The day before a date is a real calendar date, earlier than it, with no valid date strictly between; it is in the same year unless the date is 1 January, when it is 31 December of the year before. |
| LocalTime.LocalDate | components/Analytics.tsx:41-42 | Midnight UTC of a stored date is the same local day east of UTC and exactly the previous day west of it. |
| LocalTime.KeyAsWritten | components/Analytics.tsx:49-58 | The daily key is always the stored string's date, and east of UTC every key is the date-field key. |
| LocalTime.InScopeAsWritten | components/Analytics.tsx:44 | East of UTC the local-year filter is the date-field filter, and the yearly view admits everything. |
| LocalTime.NewYearMisfiled | components/Analytics.tsx:41-58 | West of UTC, an entry dated 2024-01-01 passes the 2023 filter while keeping its 2024 daily key. Its monthly key is 2023-12, and the 2024 monthly view drops it. |
| LocalTime.FirstOfMonthMisfiled | components/Analytics.tsx:41-56 | West of UTC, an entry dated on the first of any month but January is filed under the previous month; the seed salary of 2024-10-01 lands in September 2024. |
| LocalTime.ChartStaysInYear | components/Analytics.tsx:37-81 | Read by the date's own fields, every bucket of a daily or monthly view lies in the selected year. |
| Years.AddYear | components/Analytics.tsx:32-33 | Adding to a duplicate-free year list adds exactly that year and keeps the list duplicate-free. |
| Years.YearsOf | components/Analytics.tsx:32 | Exactly the transaction years, each once. |
| Years.InsertDesc | components/Analytics.tsx:34 | Insertion adds exactly the new year and keeps all the others. |
| Years.InsertDescPermutes | components/Analytics.tsx:34 | Insertion adds exactly one year and loses none, as multisets. |
| Years.DescendingCons | components/Analytics.tsx:34 | A year above every year of a descending list may lead it. |
| Years.InsertDescKeepsOrder | components/Analytics.tsx:34 | Inserting a new year keeps the list strictly descending. |
| Years.SortDesc | components/Analytics.tsx:34 | The sort permutes the years, and its output is strictly descending when the years are distinct. |
| Years.AvailableYears | components/Analytics.tsx:31-35 | The choices are the current year plus exactly the transaction years, each once, newest first; an empty ledger still offers the current year. |

## Left out

- Persistence: local storage, JSON (de)serialisation, the Firebase client and live sync, and backup export/import. These are I/O.
- Rendering: React state, memoisation, theme, layout, chart drawing, the colour palette and number formatting (`Intl.NumberFormat`, `Math.round`). These are presentation.
- Bucket labels (`toLocaleDateString`) are left out. They depend on the locale and take no part in grouping or ordering.
- The clock: the current year is a parameter of `Years.AvailableYears`, and the selected year is a parameter of the chart and category views.
- Time zones: the chart, the category breakdown and the year list read a date's year and month from its own fields (see Findings). The local-time reading is modelled for the year filter and the bucket key only (`LocalTime`), not carried through the whole chart.
- Floating point: amounts and rates are exact reals, so IEEE rounding of the sums is not modelled.
- Dates: the `date` field is modelled as an already-valid calendar date with a year from 1000 to 9999. Malformed date strings are not modelled: App.tsx and components/Analytics.tsx never validate dates, and the form that creates entries, components/Tracker (imported at App.tsx:3), is not part of this model. Years below 1000 are left out as well: a string such as "0999-05-01" is well formed, but the yearly key `year.toString()` renders it as "999", which `localeCompare` sorts after "1000", so for such years the yearly order would differ from the calendar.
- Rate validation: App.tsx and components/Analytics.tsx never check that rates are positive; the screen that edits them, components/Tools, is not part of this model, so the model accepts any rates. Non-negativity is a hypothesis of the lemmas that need it.
- Currencies: the type allows only four currencies. The code's fall-through branch, which returns the amount unchanged, can only ever be taken by MMK, so no "unknown currency" error path exists.
- The financial calculators, the tracker form, the tools screen, and the calculator/backup/profile record shapes are outside the ledger core.
- Categories.AddToCategory: the category map is a plain object literal, so it inherits the names of `Object.prototype`. For a category named "constructor", "toString", "valueOf", "hasOwnProperty", "isPrototypeOf", "propertyIsEnumerable", "toLocaleString" or "__defineGetter__" and its kin, the first addition reads the inherited function, and the stored value becomes the text of that function followed by the amount. The value is then not a number, and the sort by value misorders. For "__proto__" the assignment goes to the prototype setter, and no entry is created. The model treats every name as an ordinary fresh key, so its contract (the name is present and the sum of values rises by the amount) does not hold for these names in the application.
- Categories.AccumulateCategories: for the inherited names listed under `Categories.AddToCategory`, the application's entry is a non-numeric string, or it is missing for "__proto__". The model's accumulation gives each such name its numeric total.
- Categories.CategoryData: the per-category totals and the sum of the breakdown hold only for category names that are not inherited from `Object.prototype`, as described under `Categories.AddToCategory`.
- Categories.AccumulateCategories: entries are kept in first-seen order. A JavaScript object lists integer-like keys such as "2024" first, in numeric order, so that ordering is not modelled. It affects only the unsorted breakdown's order, never its contents.
- Categories.SortByValue: the contract states ordering and permutation but not stability. The insertion sort keeps equal values in input order, as the engine's stable sort does.
- Categories.CategoryData: the application sorts the memoised breakdown array in place, so the pie chart, rendered after the first sort, also receives it in value order. The model returns the breakdown in first-seen order and `Categories.SortByValue` returns a sorted copy. The difference affects only the order of the pie's slices and colours.
- KeyText.KeyStringOrder: `localeCompare` is modelled as code-point order. For strings of ASCII digits and '-' of equal shape, the two orders agree.
- Chart.ChartData: the `name` label and the duplicated `fullDate` field of each row are not stored. The row's key stands for `fullDate`, and `KeyText.KeyString` renders it.

## Findings

| source | as written | input that shows it | evidently intended | confidence | as-written member | corrected member |
|---|---|---|---|---|---|---|
| components/Analytics.tsx:41-58 | A `YYYY-MM-DD` string parsed with `new Date` is midnight UTC. Its year and month are then read in local time, but the daily key is the raw string. | In a time zone west of UTC, an entry dated 2024-01-01 with 2023 selected: it passes the year filter and appears in the 2023 daily view under key 2024-01-01. In the monthly view it is filed under 2023-12. More generally, west of UTC every entry dated on the first of a month is filed under the previous month; the seed salary of 2024-10-01 lands in 2024-09 (`LocalTime.FirstOfMonthMisfiled`). | The year filter and the monthly and yearly keys use the stored date's own fields, so every daily or monthly bucket lies in the selected year. | high; not executed | LocalTime.NewYearMisfiled | LocalTime.ChartStaysInYear |
