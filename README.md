# Tsum Tsum coin log — a Dafny model

`tsumu.py` is a one-page Streamlit app that logs play sessions of a mobile
game. The player enters the coins they had before and after a session, the
play count, the Tsum they used and a memo. The app refuses a session that
ends with fewer coins than it started with. Otherwise it computes the coins
earned and appends one row to a CSV table. The main panel then shows the
total of coins earned, the coins earned per day and per month, and all rows
sorted by date, newest first.

This project models that record-keeping logic:

- `Wrappers` (`wrappers.dfy`): the `Option` and `Result` values returned
  for a missing table file, an unparsable date text and a refused submission.
- `TextOrder` (`text_order.dfy`): how Python compares two strings. The
  record list is sorted by date text, and the month series is keyed by text.
  It proves that the order is strict and total.
- `Dates` (`dates.dfy`): the date picker's `date`. It covers its
  `%Y-%m-%d` rendering and the parse back, and proves they round-trip both
  ways. It proves that text order of rendered dates is chronological order,
  and that the first seven characters of a rendered date are its `%Y-%m`
  month.
- `Records` (`records.dfy`): the seven-column row and the validator that
  turns a submitted form into a row or a refusal.
- `Dashboard` (`dashboard.dfy`): the main panel as functions over the rows.
  These are the total, the group-by sums by day and by month, the descending
  sort, and the empty-table prompt.
- `RecordStore` (`store.dfy`): the table as a `Store` object whose methods
  follow `initialize_data`, `load_data`, `save_data`, the submit branch of
  `main`, and one whole pass of `main`. The CSV file becomes two fields: a
  flag saying whether the file exists, and the sequence of its rows.

## Model

| member | source | states |
|---|---|---|
| `Records.MakeRecord` | tsumu.py:59-74 | refused exactly when coins after < coins before; otherwise a row whose earned coins are after − before, whose date text parses back to the submitted date, and whose before, after, play count, Tsum and memo are the inputs, so the row is well formed |
| `RecordStore.Store.constructor` | tsumu.py:16 | the table starts as found on disk: absent and empty, or present with its rows |
| `RecordStore.Store.Initialize` | tsumu.py:12-20 | afterwards the table exists; a missing table becomes empty, an existing one keeps its rows, so repeated calls change nothing |
| `RecordStore.Store.Load` | tsumu.py:22-26 | returns every stored row, in stored order |
| `RecordStore.Store.Save` | tsumu.py:28-32 | the table becomes exactly the given rows |
| `RecordStore.Store.Submit` | tsumu.py:59-81 | the outcome is the validator's; a refusal leaves the rows unchanged; an acceptance makes the rows the old rows followed by exactly the new row, adds after − before to the total, and keeps an all-well-formed table all well-formed and a table of calendar dates a table of calendar dates |
| `RecordStore.Store.RenderPage` | tsumu.py:36-118 | one pass of `main`: the table exists, it is the rows already there (or none) plus the accepted row if any, and the panel is computed from the reloaded rows |
| `TextOrder.LexLess` | tsumu.py:112 | Python's `<` on `str`: code point by code point, a proper prefix first; it never holds between equal texts and always holds from a proper prefix to its extension (the order `groupby` and `sort_values` use) |
| `Dates.MonthKey` | tsumu.py:111-112 | the month key of a `YYYY-MM-DD` text is its first seven characters, a prefix of the date text |
| `Dates.FormatMonth` | tsumu.py:111 | `to_period('M').astype(str)`: seven characters, four year digits, a dash, two month digits; `MonthKeyOfFormat` ties it to the first seven characters of the date text |
| `Dates.FormatDate` | tsumu.py:67 | `strftime('%Y-%m-%d')` gives ten characters: four year digits, dash, two month digits, dash, two day digits |
| `Dates.ParseDate` | tsumu.py:98 | a text that parses names a valid calendar date |
| `Dates.ParseFormat` | tsumu.py:67 | parsing a rendered date gives the same date |
| `Dates.FormatParse` | tsumu.py:67 | a date text that parses is the rendering of its date, so the stored form is canonical |
| `Dates.FormatInjective` | tsumu.py:67 | two valid dates have the same text exactly when they are equal, so grouping by text groups by day |
| `Dates.FormatOrder` | tsumu.py:118 | one rendered date sorts before another as text exactly when it is chronologically earlier |
| `Dates.DigitsOrder` | tsumu.py:67 | zero-padded numbers of one width compare as text as they compare as numbers |
| `Dates.MonthKeyOfFormat` | tsumu.py:111 | the first seven characters of a rendered date are that date's `%Y-%m` month text |
| `Dates.MonthKeySameMonth` | tsumu.py:111-112 | two rendered dates share a month key exactly when they have the same year and month |
| `Dates.FormatDateExample` | tsumu.py:67 | 10 January 2024 is stored as `2024-01-10` and falls in month `2024-01` |
| `Dashboard.Total` | tsumu.py:93 | `df['獲得コイン'].sum()`: zero for an empty table, and at least the earned coins of every row |
| `Dashboard.TotalAppend` | tsumu.py:77 | appending a row raises the total by that row's earned coins |
| `Dashboard.KeyOf` | tsumu.py:105-112 | defines the day key as the date text and the month key as its first seven characters; every key is a prefix of the date text and a month key has seven characters |
| `Dashboard.SumWhereOutsideKeys` | tsumu.py:105 | a key that no row has collects no coins |
| `Dashboard.AddTo` | tsumu.py:112 | adding coins to a series keeps its keys strictly ascending, adds the key if missing, raises only that key's bucket, and raises the series sum by the same amount |
| `Dashboard.GroupSum` | tsumu.py:105 | the group-by sum has keys strictly ascending, exactly the keys that occur among the rows, one bucket per key, each bucket holding the coins earned by the rows with its key, and bucket values summing to the total |
| `Dashboard.DistinctKeys` | tsumu.py:112 | a strictly ascending series has as many distinct keys as buckets |
| `Dashboard.BucketIsGroupTotal` | tsumu.py:105 | every bucket holds the coins earned by the rows with its key, and its key occurs among the rows |
| `Dashboard.DayKeysParse` | tsumu.py:98 | when every date text is a calendar date, so is every day key |
| `Dashboard.DailyChronological` | tsumu.py:98-105 | when every date text is a calendar date, the day buckets are real dates in chronological order |
| `Dashboard.InsertByDate` | tsumu.py:118 | inserting into a descending list keeps it descending by date and adds exactly that row |
| `Dashboard.SortByDateDesc` | tsumu.py:118 | the sorted list is a permutation of the rows and non-increasing by date text |
| `Dashboard.Render` | tsumu.py:85-118 | for a table whose date texts are all calendar dates (otherwise `pd.to_datetime` raises): the prompt appears exactly when there are no rows; otherwise the total is the sum of earned coins, both series are correct group-by sums whose buckets add up to the total, the day buckets are chronological, and the table is a descending permutation of the rows |

## Left out

- The Streamlit user interface is not modelled: page setup, the sidebar widgets, `clear_on_submit`, messages, balloons, charts and `st.dataframe`. The number inputs' `min_value=0` becomes the `nat` type of the candidate's numbers.
- CSV input and output are not modelled: file paths, UTF-8 with BOM, quoting, and how pandas infers types when reading back (empty text may come back as NaN). Loading returns the stored rows and saving replaces them, so no file round trip is claimed.
- Filesystem failures are not modelled. In the source they escape as exceptions.
- `RecordStore.Store.Load` requires the table to exist. `main` always calls `initialize_data` first; reading a missing file would raise.
- `Dashboard.Render` requires every date text to be a `YYYY-MM-DD` calendar date. The source raises at `pd.to_datetime` on a text that is not a date, such as `2024-02-30`; the model does not render that error and excludes such tables instead. `pd.to_datetime` also accepts other spellings, which the model does not read. The app only ever writes canonical dates; other texts come only from hand edits.
- `RecordStore.Store.RenderPage` requires the date texts of a table already on disk to be calendar dates, for the same reason as `Dashboard.Render`.
- `Dashboard.Render` accepts every year from 1 to 9999. pandas timestamps with nanosecond resolution only span about 1677 to 2262, so `pd.to_datetime` may raise on years outside that span; this error path is not modelled.
- `Dashboard.Render` keys the day series by date text. The source keys it by the parsed `date`. The two agree on well-formed rows by `Dates.FormatInjective` and `Dashboard.DailyChronological`.
- `Dashboard.SortByDateDesc`: the model's insertion sort keeps rows with equal dates in stored order, but its contract promises only a permutation that does not increase by date. The source calls `sort_values` with its default algorithm, which is not stable, so the code promises no order among rows of the same date.
- `Dashboard.Total`: the 64-bit integer sum and the thousands-separated metric text are not modelled. The total is an unbounded natural number.
- `Dates.FormatDate`: years are always padded to four digits. The padding that `strftime` applies to years below 1000 depends on the platform.
