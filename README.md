# Bank-export reports, modelled in Dafny

The system reads a personal bank export: a list of transaction rows, each with a
timestamp text ("DD.MM.YYYY HH:MM:SS"), a signed amount (negative for a spend),
a category, an optional cashback figure, an optional card number and a description.
This project models the analysis logic that turns those rows into reports:

- `src/utils.py`, the home-page helpers:
  - the date filter: from midnight on the 1st of the month of the day after the input day, up to and including the following midnight (see "## Findings")
  - the time-of-day greeting
  - the per-card totals of spend and cashback
  - the five largest operations
- `src/services.py`, `analyze_cashback`: the cashback earned per category in one calendar month.
- `src/reports.py`:
  - `spending_by_category`: one category's signed total per calendar month over a trailing window
  - the two decorators that save a report's result and hand it back.

## How the model is organised

- Shared modules:
  - `Wrappers` (`Option`, `Result`, `Error`)
  - `Text` (digits, fixed-width numbers, `strip`, `lower`)
  - `Dates` (naive `datetime`: validity, field-by-field comparison, day arithmetic with Python's overflow, the three `strptime`/`strftime` formats)
  - `Money` (Python's `round` as exact decimal rounding, ties to even)
  - `Operations` (the row type, card-number validity, and `ParseDates`, the per-row `strptime` of a list of rows that fails on the first bad timestamp)
  - `Grouping` (a dict filled in insertion order, keyed by a per-row key and summing a per-row value)
- `Utils`, `Services` and `Reports` follow the three source files.
- The loops that fill a dict or a list step by step are methods, proved against prefix-recursive specification functions:
  - `Utils.GetCardsData` and its body `Utils.AddCardRecord`
  - `Utils.GetTop5Operations` and its body `Utils.TopEntry`
  - `Services.AnalyzeCashback` and its body `Services.AddRecord`
- The comprehension filter, the pandas pipeline and the decorators are functions.
- Amounts are exact `real` numbers.
- An exception that the source lets escape, or catches and turns into `""`, is a `Failure`.
- The hour and "now" are parameters (`Utils.Greeting`, `Reports.SpendingByCategory`).
- Edge cases of the code, kept as written:
  - A timestamp that does not parse aborts the filter, and the exception escapes. It aborts the top-five list only when its row is among the five largest by absolute amount. It makes `analyze_cashback` return `""`. The row is not dropped.
  - In `spending_by_category` the column conversion reads an empty cell and the texts "NaT", "nat", "NAT", "nan", "NaN" and "NAN" as NaT, and the mask drops those rows. Any other text that is not in the export's timestamp format makes it return `""` (but see `Reports.ConvertStamp` under "## Left out").
  - A card whose rows are all income still gets an entry (`Utils.IncomeOnlyCard`).

## Model

| member | source | states |
|---|---|---|
| Utils.DateWindow | src/utils.py:60-62 | the input day parses as "%d.%m.%Y", or the filter fails; the window's bounds are valid and ordered; its value is `Utils.DateWindowOfDay` |
| Utils.DateWindowOfDay | src/utils.py:60-62 | the text of any day gives exactly the window after that day's midnight |
| Utils.WindowAfter | src/utils.py:61-62 | `end` is the next day; `start` is the first of END's month; the bounds are valid and ordered; it fails, with OverflowError, only on 31.12.9999 |
| Utils.FilterWindowShape | src/utils.py:60-62 | `end` is exactly one day after the input day; before a month's last day `start` is that month's first; on the last day the window collapses to one instant |
| Utils.FilterWindowMidMonth | src/utils.py:61-62 | 20.03.2020 gives the window 01.03.2020 00:00 .. 21.03.2020 00:00 |
| Utils.FilterWindowMonthEnd | src/utils.py:61-62 | 31.03.2020 gives the window 01.04.2020 00:00 .. 01.04.2020 00:00 |
| Utils.MarchDay | src/utils.py:60 | "20.03.2020" and "31.03.2020" parse to those days at midnight |
| Utils.KeepInWindow | src/utils.py:64-70 | the comprehension fails only with a parse error and keeps at most the input's rows; its full behaviour is `Utils.KeepInWindowSpec` |
| Utils.KeepInWindowSpec | src/utils.py:64-70 | the comprehension fails exactly when some timestamp does not parse; otherwise it keeps, in order, every copy of each row inside the window and nothing else |
| Utils.FilterOperationsByDate | src/utils.py:56-72 | a day text that does not parse fails; the filter fails only with a parse error or OverflowError and keeps at most the input's rows; its full behaviour is `Utils.FilterOperationsByDateSpec` |
| Utils.FilterOperationsByDateSpec | src/utils.py:56-72 | the filter succeeds iff the input day gives a window and every timestamp parses; it then keeps exactly the rows in the window, in order |
| Utils.MonthEndWindowMissesMonth | src/utils.py:61-62 | for the input day 31.03.2020, a purchase at 10:00 that day is outside the window |
| Utils.MonthEndTextWindow | src/utils.py:60-62 | the text "31.03.2020" gives the window after 31 March 2020 |
| Utils.IntendedWindow | src/utils.py:56-62 | the corrected window starts on the first of the input day's own month; it matches the code's window on every day but a month's last |
| Utils.IntendedWindowCoversMonth | src/utils.py:56-62 | the corrected window holds exactly the month's moments up to the end of the input day, plus the following midnight |
| Utils.Greeting | src/utils.py:75-90 | morning iff 6 <= hour < 12, day iff 12..17, evening iff 18..22, night otherwise |
| Utils.SpendOf | src/utils.py:106-107 | a spend adds exactly its absolute amount to `total_spent`; any other row adds nothing |
| Utils.CardCashbackOf | src/utils.py:106-120 | cashback is never negative; it is nothing for income, transfers and cash; otherwise it is exactly the reported value when that is there and not negative, else 1% of the spend |
| Utils.CardTallyAppend | src/utils.py:96-120 | one more row: a row without a usable card changes nothing; a new card is appended last with zero totals, then the row's spend and cashback are added |
| Utils.AddCardRecord | src/utils.py:97-120 | the loop body keeps `card_data` equal to the per-card totals of the rows seen, in first-seen order |
| Utils.GetCardsData | src/utils.py:93-132 | one entry per usable card, in first-seen order: its spend and cashback totals, each rounded to 2 decimals, both >= 0 |
| Utils.CardKeysSpec | src/utils.py:97-104 | the cards listed are distinct, are exactly the usable card numbers present, are never empty or "nan", and grow as a prefix when rows are added |
| Operations.UsableCardNumber | src/utils.py:99 | the card test; what it accepts is stated by `Operations.UsableCardNumberSpec` |
| Operations.UsableCardNumberSpec | src/utils.py:99 | a card number is skipped exactly when it is empty or, once stripped, is "nan" in any mix of cases |
| Operations.UnusableCardNumbers | src/utils.py:99 | "", "nan", " NaN " and "NAN\n" attribute nothing; "*7197" is a card |
| Utils.ExcludedEarnNoCashback | src/utils.py:111 | dropping transfer and cash rows leaves every card's cashback unchanged |
| Utils.IncomeOnlyCard | src/utils.py:103-107 | a card with only income has both totals zero, and still gets an entry when it appears at all |
| Utils.CardExample | src/utils.py:93-132 | a 500 transfer plus a 200 purchase with cashback 5 on one card give 700.0 spent and 5.0 cashback |
| Utils.SortByAbs | src/utils.py:137 | the sort keeps the length; its order, permutation and stability are `Utils.SortByAbsSpec` |
| Utils.SortByAbsSpec | src/utils.py:137 | the sort is non-increasing in absolute amount, is a permutation of its input, and is stable (equal amounts keep their input order) |
| Utils.InsertByAbsStable | src/utils.py:137 | inserting one row keeps the relative order of rows with equal absolute amount |
| Utils.Largest5 | src/utils.py:137-139 | the head of the sorted list has min(n, 5) rows |
| Utils.Largest5Beats | src/utils.py:137-139 | no row after the first five has a larger absolute amount than a kept row; the kept rows come from the input |
| Utils.TopEntry | src/utils.py:140-148 | an entry exists iff the timestamp parses; its "date" is the first ten characters of the timestamp text |
| Utils.TopEntries | src/utils.py:139-148 | when the entries exist there is one per row; their contents are `Utils.TopEntriesSpec` |
| Utils.TopEntriesSpec | src/utils.py:139-148 | the entries exist iff every timestamp parses; then there is one per row, in order, holding its day, amount, category and description |
| Utils.TopEntriesStep | src/utils.py:139-148 | one more row appends its entry, or fails the whole list when its timestamp does not parse |
| Utils.GetTop5Operations | src/utils.py:135-150 | the result is the entries of the five largest rows, or a failure when one of their timestamps does not parse |
| Utils.TopIsLargest | src/utils.py:137-148 | the top entries are in non-increasing absolute amount, one per kept row, each copied from an input row whose timestamp parses |
| Services.RecordCashback | src/services.py:44-49 | a spend earns its reported cashback when that is not negative, else 1% of the spend rounded to 5 decimals; never negative |
| Operations.ParseDatesStep | src/services.py:39-40 | parsing one more timestamp appends its row to the parsed prefix |
| Services.AddRecord | src/services.py:41-53 | the loop body keeps the dict equal to each category's cashback over the rows seen, with keys in first-seen order |
| Services.AnalyzeCashback | src/services.py:35-59 | fails exactly when some timestamp does not parse; otherwise the categories (in first-seen order) and their cashback sums over the month's spends |
| Services.CashbackCategoriesSpec | src/services.py:41-53 | categories are distinct, and are exactly those of the month's spends; transfers and cash are not excluded; the categories of a prefix of the rows are a prefix of the list (first-seen order) |
| Services.CashbackNonNegative | src/services.py:44-53 | no category's cashback is negative |
| Services.CategoriesAddUp | src/services.py:50-53 | the category totals add up to the cashback of all the month's spends |
| Services.OnlyMonthSpendsCount | src/services.py:41-44 | rows of other months and income change neither the categories nor the totals |
| Services.MidMayTimestamp | src/services.py:40 | "15.05.2020 10:00:00" parses to 15 May 2020 10:00:00 |
| Services.MayCashbacks | src/services.py:49 | 1% of 1000 is 10.0 and 1% of 500 is 5.0 at 5 decimals |
| Services.MayExample | src/services.py:35-59 | May 2020 with food -1000, transfer -500 and salary +3000 gives {"Food": 10.0, transfers: 5.0} |
| Operations.ParseDates | src/services.py:39-40 | parsing every row's timestamp one by one yields one dated row per row, or a parse error |
| Operations.ParseDatesSucceeds | src/services.py:39-40 | the per-row `strptime` succeeds for all rows iff every timestamp parses; "" and "nan" do not |
| Operations.ParseDatesValues | src/services.py:39-40 | each dated row is the original row with its parsed timestamp |
| Reports.ConvertStamp | src/reports.py:54 | a cell becomes NaT exactly when it is "" or one of pandas' NaT/nan spellings; otherwise it becomes its parsed timestamp, or the conversion fails when it does not parse |
| Reports.ConvertColumnSpec | src/reports.py:54 | the column conversion succeeds iff every cell converts; it then pairs each row, in order, with its own converted cell |
| Reports.ReferenceDate | src/reports.py:55-58 | no date means now; a given date must parse as "%Y.%m.%d" and is then exactly the day that parse reads, at midnight |
| Reports.ReferenceDateOfDay | src/reports.py:55-58 | a reference date written year first for any day gives midnight of that day |
| Reports.DayFirstReferenceFails | src/reports.py:58 | the day-first text "20.05.2020" is refused as a reference date |
| Reports.WindowStart | src/reports.py:59 | the start is valid, or the result is an OverflowError |
| Reports.WindowStartSpec | src/reports.py:59 | the start is exactly 90 days before the first of the reference month, at the reference's time of day, never after the reference; it overflows only within 90 days of 0001-01-01 |
| Reports.Kept | src/reports.py:60-64 | the mask keeps at most the input's rows |
| Reports.KeptSpec | src/reports.py:60-64 | the mask keeps each row exactly when it has a timestamp between start and reference, ends included, and the requested category, as often as it occurs; a NaT row is never kept |
| Reports.ReferenceDayExcluded | src/reports.py:58-62 | with a text reference date, a row later on that same day is left out |
| Reports.FirstMonth | src/reports.py:65 | the earliest month of the rows is <= every row's month and is some row's month |
| Reports.LastMonth | src/reports.py:65 | the latest month of the rows is >= every row's month and is some row's month |
| Reports.MonthIndexNames | src/reports.py:65-67 | a month index gives back its year and month |
| Reports.Buckets | src/reports.py:65 | no rows give no months; otherwise one row per month from the earliest to the latest; their sums are `Reports.BucketsSpec` |
| Reports.BucketsSpec | src/reports.py:65 | one row per calendar month from the earliest to the latest, empty months included, each holding its month's signed sum |
| Reports.BucketsAddUp | src/reports.py:65 | the month rows add up to the signed total of the rows grouped |
| Reports.SpendingByCategory | src/reports.py:49-71 | the report fails only with a parse error or OverflowError, and no rows give no months; its full behaviour is `Reports.SpendingByCategorySpec` |
| Reports.SpendingByCategorySpec | src/reports.py:49-71 | the report succeeds iff every timestamp cell converts (to a timestamp or NaT), the reference date parses and the window start exists; then it is the monthly rows of the kept rows |
| Reports.MissingStampIgnored | src/reports.py:54-62 | adding a row whose timestamp cell pandas reads as NaT leaves the report unchanged |
| Reports.EmptyStampRowDropped | src/reports.py:54-62 | a single spend with an empty timestamp gives an empty report, not an error |
| Reports.ReportToFileDefault | src/reports.py:17-28 | the wrapper accepts what the wrapped function accepts and returns its result unchanged |
| Reports.ReportToFile | src/reports.py:31-45 | the same, for the decorator built from a file name |
| Reports.DecoratedSpendingByCategory | src/reports.py:49-50 | the decorated report returns what the undecorated one computes |
| Dates.ParseDateTime | src/utils.py:66 | an accepted timestamp is a valid datetime and the text has 19 characters |
| Dates.ParseFormatDateTime | src/utils.py:66 | formatting a valid datetime and parsing it back gives it again |
| Dates.FormatParsedDateTime | src/utils.py:66 | every accepted timestamp text is the canonical rendering of what it parses to |
| Dates.DayOfParsedDateTime | src/utils.py:140 | strftime("%d.%m.%Y") of a parsed timestamp is the first ten characters of its text |
| Dates.ParseDayMonthYear | src/utils.py:60 | an accepted "%d.%m.%Y" text is a valid day at midnight; its value is pinned by `Dates.ParseFormatDayMonthYear` and `Dates.FormatParsedDayMonthYear` |
| Dates.FormatParsedDayMonthYear | src/utils.py:60 | every text the day-first parser accepts is the zero-padded rendering of the day it reads, so no other text is accepted |
| Dates.ParseFormatDayMonthYear | src/utils.py:60 | formatting a day then parsing it gives that day at midnight |
| Dates.ParseYearMonthDay | src/reports.py:58 | an accepted "%Y.%m.%d" text is a valid day at midnight; its value is pinned by `Dates.ParseFormatYearMonthDay` and `Dates.FormatParsedYearMonthDay` |
| Dates.ParseFormatYearMonthDay | src/reports.py:58 | writing a day as "%Y.%m.%d" and parsing it gives that day at midnight |
| Dates.FormatParsedYearMonthDay | src/reports.py:58 | every text the year-first parser accepts is the zero-padded rendering of the day it reads |
| Dates.YearFirstReferenceDate | src/reports.py:58 | "%Y.%m.%d" refuses "20.05.2020" and reads "2020.05.20" as 20 May 2020 |
| Dates.AddOneDay | src/utils.py:61 | the next day keeps the time of day; it fails only after 31.12.9999 |
| Dates.AddOneDayInstant | src/utils.py:61 | the next day is exactly 86400 seconds later |
| Dates.MonthStart | src/utils.py:62 | midnight on the 1st of the same month, not after the given moment |
| Dates.SubtractDays | src/reports.py:59 | subtracting days gives a valid datetime or overflows; the amount is `Dates.SubtractDaysInstant` |
| Dates.SubtractDaysInstant | src/reports.py:59 | subtracting n days fails iff it passes 0001-01-01; otherwise it is n*86400 seconds earlier at the same time of day |
| Dates.SubtractDaysWithinMonth | src/reports.py:59 | going back `day - 1` days lands on the 1st of the same month at the same time |
| Dates.InstantInjective | src/reports.py:59 | two valid moments at the same instant are equal, so the instants stated for the window start and the next day name one calendar moment |
| Dates.LessEqIsInstantOrder | src/utils.py:69 | Python's field-by-field datetime comparison is the order of instants |
| Money.RoundedUnits | src/services.py:49 | the nearest whole number of units, within half a unit; on an exact tie the even one |
| Money.Round | src/utils.py:127-128 | the result is a whole number of 10^-places units, within half a unit of the input; never negative for a non-negative input |
| Money.RoundExact | src/services.py:49 | a value already exact at the given decimals is unchanged |
| Text.StripSpec | src/utils.py:99 | the stripped text is the input with only leading and trailing whitespace cut off, and starts and ends with a non-space |
| Text.LowerIsNan | src/utils.py:99 | the lower-cased text is "nan" exactly when the text is "nan" in any mix of cases |

## Left out

- Loading the spreadsheet (`load_operations_xlsx`), the module-level settings, the currency and stock HTTP clients, `main_page`/`main`, and logging: I/O only. The rows are the model's input.
- `Utils.Greeting` takes the hour as a parameter. `Reports.SpendingByCategory` takes "now" as a parameter. The clock is not modelled.
- The file writes of both decorators: the model keeps only that the wrapped result is returned unchanged. `ReportToFile` is modelled uncurried (file name and function together) rather than as a function returning a decorator.
- `json.dumps` at src/services.py:55 is not modelled. `Services.AnalyzeCashback` returns the dict itself: its keys in insertion order and its values. `""` is modelled as `Failure`.
- `.sum()` at src/reports.py:65 sums every other column per month (numbers by addition, text columns by concatenation), and `to_dict(orient="records")` at src/reports.py:67 drops the month label. The model keeps, per month, the year, the month and the signed sum of the amounts only. It does not model the sums of the other columns.
- Reports.ConvertStamp: pandas also reads the texts "now" and "today" as the current moment instead of failing. The model treats them like any other text not in the export's format.
- The in-place change of the caller's DataFrame column at src/reports.py:54 is not modelled (a conversion to a new value is modelled instead).
- Floating point: amounts and cashback are exact reals. IEEE rounding of `amount * -0.01` and of the sums is not modelled. `round` is exact round-half-even on decimals.
- Text parsing:
  - `strptime` also accepts one-digit fields and some padding. The parsers here accept only the fixed-width form that the export uses.
  - `strip`/`lower` cover ASCII whitespace and letters only.
- Rows with a missing key (KeyError) or NaN amounts or categories are not modelled. A NaN cashback or card cell is `None`.
- Reports.SpendingByCategorySpec: a blank timestamp cell, which pandas reads as a float NaN, is modelled as the empty text.
- Reports.SpendingByCategorySpec: pandas' nanosecond timestamps run only from 21 September 1677 to 11 April 2262, and a timestamp outside that range makes the report return `""`; the model accepts every year from 1 to 9999.
- Reports.SpendingByCategorySpec: "now" is a whole second. `datetime.now()` carries microseconds, which move the window start by up to one second.
- Reports.WindowStartSpec: states the window start as an instant. It does not give a concrete calendar example of the 90-day step across month ends.

## Findings

| source | as written | input that shows it | evidently intended | confidence | as-written member | corrected member |
|---|---|---|---|---|---|---|
| src/utils.py:61-62 | `start_date` is the first of `end_date`'s month, where `end_date` is the day after the input day | "31.03.2020": the window is 01.04.2020 00:00 .. 01.04.2020 00:00, so no March row is kept | the description says the filter runs from the start of the input day's month through the input day, so `start_date` is the first of `input_date`'s month | high (not executed) | Utils.MonthEndWindowMissesMonth | Utils.IntendedWindowCoversMonth |
