# Legal-case dashboard data processor, modelled in Dafny

This project models `DataProcessor` from `data_processor.py`. The class reads
a spreadsheet of legal cases and turns it into the payload a dashboard shows:
- KPIs: value in progress, number of intakes, saving, number of closed cases;
- three charts: top 10 cases by value, top 5 action types by summed value, top 10 responsible users by summed value;
- a table of the 50 most valuable cases in progress.

The model covers these parts:
- **Currency cleaning** (`_clean_currency`): drop "R$", delete every '.', turn ',' into '.', delete spaces, strip, then parse as `float()` would.
- **Column resolution** (`_get_column`): names are lowercased and stripped of leading and trailing white space (inner spaces still count), then matched in both directions by substring containment. The first candidate wins, then the first column.
- **Loading** (`_load_data`): choose the cause-value column, preferring "valor da causa atual", and derive the `valor_numerico` column from it.
- **The payload** (`get_full_data`): status subsets, KPIs with the saving floored at 0, `nlargest`, `groupby(...).sum()`, and the process table with the "Não Informado" placeholder.

Modules:
- `Wrappers`: `Option`.
- `PyStr`: the Python `str` operations the source uses.
- `Currency`: `_clean_currency`, `float()` on plain decimals, and a Brazilian money formatter for a round trip.
- `Columns`: `_get_column` and the cause-value column search.
- `Ranking`: masks, sums, a stable descending sort with top-k, and group sums.
- `Frames`: the loaded table and the derived column.
- `Aggregation`: `get_full_data` as functions, and the properties proved about them.
- `Processor`: the class `DataProcessor`. Its `df` field is set by the constructor and `LoadData`; `GetColumn` and `GetFullData` only read it. Each method is proved equal to the function that specifies it.

Five behaviours of the code are made explicit and proved:
- `valor_numerico` is appended to the columns before any resolver runs. When no spreadsheet column matches "Valor" or "valor" (after lowercasing and stripping, neither name contains the other), the paid-value resolver lands on `valor_numerico` itself (`Aggregation.PaidResolvesToValueColumn`). A short header such as "Val" or "A" does match, because "valor" contains it.
- When the paid-value resolver lands on the cause-value column, the reported saving is always 0 (`Aggregation.SavingZeroWhenPaidIsCause`).
- Every '.' is deleted before parsing, so a cell reading "1000.5" is cleaned to 10005 (`Currency.CleanCurrencyOfDottedNumber`).
- A column whose name strips to "" matches every candidate (`Columns.BlankColumnMatchesAll`).
- The cause-value search needs "valor da causa", with spaces. A spreadsheet whose headers hold no space, such as `status`, `valor_causa` and `valor`, has no cause-value column, so `valor_numerico` is 0 in every row (`Aggregation.HeadersWithoutSpaceGiveZero`).

The `elif` fallbacks on the exact headers at `data_processor.py:63-66` can never run. Whenever either header is present, the search loops have already chosen a column (`Frames.CauseSourceIsSearched`).

## Model

| member | source | states |
|---|---|---|
| Currency.CleanCurrency | data_processor.py:10-18 | a missing cell or a blank/"-" text gives 0; a non-zero result is the `float` of the rewritten text; a rewritten text that parses gives exactly its value |
| Currency.CleanCurrencyOfBrl | data_processor.py:12-16 | round trip: an amount of cents written as Brazilian money ("R$ 1.234,56") is cleaned back to cents / 100 |
| Currency.Grouped | data_processor.py:14 | grouping digits with '.' separators only adds '.' characters, and deleting every '.' gives the digits back |
| Currency.CleanCurrencyExample | data_processor.py:14-16 | "R$ 1.234,56" is cleaned to 1234.56 |
| Currency.CleanCurrencyOfDottedNumber | data_processor.py:14-16 | a number rendered as "1000.5" is cleaned to 10005, because every '.' counts as a thousands separator |
| PyStr.Strip | data_processor.py:12 | `strip()` gives a result no longer than its input that neither starts nor ends with white space |
| PyStr.StripSpec | data_processor.py:12 | `strip()` gives the infix of its input that starts after the leading white space; every character removed on either side is white space |
| PyStr.Lower | data_processor.py:76-79 | `lower()` keeps the length and lowercases each character |
| PyStr.ReplaceCharRemoves | data_processor.py:14 | after `replace(c, rep)`, where `rep` lacks `c`, no `c` is left |
| Columns.FirstMatch | data_processor.py:80-82 | the inner loop finds the first column matching the candidate, or reports that none matches |
| Columns.ResolveWithSpec | data_processor.py:78-84 | for any match test, no result exactly when no candidate matches any column; otherwise the column of the first matching pair |
| Columns.ResolveStep | data_processor.py:78-82 | a hit for the current candidate decides the result; a miss passes on to the next candidate |
| Columns.ResolveSpec | data_processor.py:71-84 | `_get_column` gives `None` exactly when no candidate overlaps any column after lower+strip; otherwise the column of the first (candidate, column) hit |
| Columns.ResolveIsColumn | data_processor.py:82 | any returned name is one of the table's columns |
| Columns.BlankColumnMatchesAll | data_processor.py:76-81 | a column whose name strips to "" matches every candidate |
| Columns.CauseColumnChoice | data_processor.py:45-58 | the chosen column is a column of the table; a "valor da causa atual" column wins over a plain one; the first of the winning kind is taken; there is none exactly when neither kind occurs |
| Columns.ExactCauseHeadersFound | data_processor.py:61-66 | when "Valor da Causa Atual" or "Valor da Causa" is a column, the search has already found a cause-value column |
| Frames.WithColumn | data_processor.py:62-69 | assigning `df['valor_numerico']` keeps the existing columns in order and appends the name only when it is absent; an existing column is replaced in place, not duplicated |
| Frames.CauseSourceIsSearched | data_processor.py:61-69 | the column `valor_numerico` is cleaned from is exactly the one the search loops chose |
| Frames.LoadSpec | data_processor.py:42-69 | loading a non-empty frame keeps every row and column, adds `valor_numerico`, and sets each row's value to the cleaned cause cell, or to 0 when there is no cause column |
| Ranking.FilterMembership | data_processor.py:97-99 | a row is kept by a mask exactly when it is in the table and satisfies the mask |
| Ranking.FilterAppend | data_processor.py:97-99 | masking keeps the rows in their original order |
| Ranking.SumByAppend | data_processor.py:104-105 | a column sum splits over concatenated rows |
| Ranking.InsertSpec | data_processor.py:119 | inserting into a descending sequence adds exactly that element and keeps the order |
| Ranking.SortDescSpec | data_processor.py:119 | the sort behind `nlargest` is a permutation in descending order |
| Ranking.TopKSpec | data_processor.py:119 | `nlargest(k)` returns min(k, n) rows, in descending order, drawn from the input; no row left out is worth more than a row kept |
| Ranking.GroupSumsSpec | data_processor.py:126 | `groupby(...).sum()` has one group per distinct present key and no other; each total is the sum of that key's values |
| Aggregation.SplitMembership | data_processor.py:97-99 | a row is in progress, closed or an intake exactly when its status text contains "andamento", "encerrado" or "entrada" in any case |
| Aggregation.KpisSpec | data_processor.py:101-108 | the counts are the subset sizes; the value in progress is the sum over in-progress rows; the saving is max(0, cause sum − paid sum), or 0 without a paid column or closed rows |
| Aggregation.TopCausesSpec | data_processor.py:116-121 | `top10_causas` has at most ten entries, as many labels as values, values non-increasing; when charted, it shows min(10, n) in-progress rows, each as the text of its process cell and its value, and otherwise it is empty |
| Aggregation.TopCausesLeftOut | data_processor.py:119-121 | no in-progress row left out of `top10_causas` is worth more than a row shown |
| Aggregation.TopGroups | data_processor.py:126-128 | `groupby(...).sum().nlargest(k)` keeps min(k, #groups) groups, descending, with distinct names, each a present key carrying the sum of its values |
| Aggregation.TopGroupsLeftOut | data_processor.py:126 | no key left out of the k largest group sums has a larger total than a kept group |
| Aggregation.GroupChartSpec | data_processor.py:123-135 | each group chart has as many labels as values, values non-increasing, and is empty when not charted; when charted it has min(k, #keys) entries with distinct labels, each a key of the in-progress rows with its total, and no key left out has a larger total than an entry shown |
| Aggregation.ProcessesSpec | data_processor.py:137-151 | the process table is empty when not charted; otherwise it describes the min(50, n) most valuable in-progress rows in descending order, each by its value and its process, type, date and owner fields |
| Aggregation.DescribeSpec | data_processor.py:145-149 | a process-table field is "Não Informado" when its column did not resolve to a non-empty name or the cell is missing, and the cell text otherwise |
| Aggregation.FullDataSpec | data_processor.py:86-175 | no payload exactly when the table is empty or no column matches "status"; otherwise the saving is ≥ 0 and the charts and table respect the bounds 10, 5, 10 and 50 |
| Aggregation.PaidResolvesToValueColumn | data_processor.py:102 | when no spreadsheet column matches "valor", the paid-value resolver returns the derived `valor_numerico` column |
| Aggregation.HeadersWithoutSpaceGiveZero | data_processor.py:45-69 | when no header holds a space, no cause-value column is found and `valor_numerico` is 0 in every row |
| Aggregation.CauseColumnIsNotDerived | data_processor.py:45-62 | the chosen cause-value column is never `valor_numerico` |
| Aggregation.SavingZeroWhenPaidIsCause | data_processor.py:102-108 | when the paid-value resolver returns the cause-value column, the saving is 0 for every status column and every data |
| Processor.ScanColumns | data_processor.py:80-82 | the loop over lowered names returns the first index whose name overlaps the candidate, or none |
| Processor.DescribeProcesses | data_processor.py:143-151 | the `iterrows` loop builds exactly one process entry per top row, in order |
| Processor.DataProcessor.constructor | data_processor.py:5-8 | a new processor holds the loaded table |
| Processor.DataProcessor.LoadData | data_processor.py:20-69 | afterwards `df` is the loaded table: none when unreadable, the frame as read when empty, otherwise with `valor_numerico` derived |
| Processor.DataProcessor.GetColumn | data_processor.py:71-84 | the loops return no column without a table, and otherwise exactly the column `Columns.ResolveSpec` characterises |
| Processor.DataProcessor.GetFullData | data_processor.py:86-175 | the method returns the payload `Aggregation.FullDataSpec` characterises, and none without a table |

## Left out

- File access: `os.path.exists`, the Excel/CSV readers and their encoding fallbacks, and the error `print`. The table read from the file is a parameter (`None` when the file is missing or unreadable). A failure of the last `read_csv` fallback, which propagates out of the constructor, is not modelled.
- Currency.CleanCurrency: `float()` is modelled only on optionally signed plain decimals. Exponents, "inf", "nan", underscores and IEEE rounding are not, and such texts are read as 0. The amounts are exact reals.
- Currency.CleanCurrency: `str(value)` of a non-text cell (an int or float read by pandas) is not modelled. Cells are text or missing, so a numeric cell must be given as its rendering (as `Currency.CleanCurrencyOfDottedNumber` does).
- PyStr.Lower: only ASCII and the Latin-1 capitals are lowercased; the rest of Unicode's case mappings are not modelled.
- Python's `str` of a float is a parameter `show` of the aggregation. It is read only where a resolver lands on `valor_numerico`.
- Ranking.TopKSpec: `nlargest` is a stable descending sort cut to its first k rows. The tie-breaking of pandas among equal values is not claimed.
- Ranking.GroupSumsSpec: groups are kept in order of first appearance rather than the sorted order pandas uses. Only the set of groups, their totals and the descending order after `nlargest` are claimed.
- An empty frame is kept as read, without `valor_numerico`. Its records carry an amount of 0 that no operation reads, since `get_full_data` returns no payload for an empty table.
- JSON serialisation of the payload, the web application (`app.py`), and its routes and templates are not part of this model.
