# Ogun EMR weekly facility dashboard: filtering and aggregation model

This project models the data pipeline behind the Ogun EMR weekly facility dashboard, `emrdashboard.py`.
The dashboard reads one sheet of per-facility HIV treatment and viral-load counts.
It drops the rows that have no `FacilityName`.
It offers three cascading multiselects: State, then LGA (local government area) narrowed by the chosen States, then Facility narrowed by the chosen LGAs.
When "Apply Filters" is pressed, it narrows the sheet by each non-empty selection in turn.
It then computes nine column totals and shows seven of them as KPIs together with two guarded percentages (VL coverage and VL suppression); the TX_PVLS_D and TX_PVLS_N totals only feed the percentages. It also shows a per-facility TX_CURR bar chart and two per-LGA percentage charts drawn from per-LGA group totals, and a preview of the first 100 filtered rows.

Modules, one per part of the pipeline:

- `Wrappers` (`wrappers.dfy`): `Option`. `None` is an empty cell (pandas NaN).
- `Frame` (`frame.dfy`): a sheet row (`Row`), its key columns (`Field`), and `Select`, which selects rows by a boolean mask (`df[mask]`). It is stated as an order-preserving subsequence that keeps every passing row exactly as often as it occurs. The masks the program builds (`notna`, `isin`) are the datatype `Test`, together with `Matches`: the program never builds one mask for the three sidebar filters, but narrows three times in a row; `Matches` is the model's single mask for those three successive narrowings, the one `Dashboard.ApplyFilters` is proved equal to.
- `Cascade` (`cascade.dfy`): load-time cleaning (`dropna`), `Series.unique()`, and the three option lists with the intermediate frames `df_lga` and `df_fac`.
- `Aggregation` (`aggregation.dfy`): column totals (`Series.sum()`), the guarded percentages, `groupby(key)[column].sum()`, and `head(100)`.
- `Dashboard` (`dashboard.dfy`): the apply step, written as a method with successive assignments the way the script narrows `filtered_df`, plus the run from load to preview and the lemmas that connect the apply step to the option cascade.

The source of truth is the code. Where an informal description of the program disagrees with it, the model follows the code:

- Load drops only rows whose `FacilityName` cell is missing (NaN). This agrees with a rule of dropping null or empty names only because the Excel reader, which is not part of this model, already turns empty strings and other NA-like strings into NaN, so the raw rows of the model stand for the cells after reading. A value that is not NA-like, such as a name made only of spaces, is kept, because `dropna` tests only for missing values.
- VL coverage and VL suppression are not clamped to [0, 100]. With non-negative counts they are non-negative. Each is at most 100 exactly when its numerator does not exceed its denominator, when its denominator is positive (otherwise it is exactly 0) (`Aggregation.PercentagesInRange`). For example, coverage exceeds 100 when more viral-load tests are recorded than patients are eligible.
- Rows with an empty LGA form no group in the per-LGA grouping (`groupby` drops missing keys). So those per-LGA group totals add up to the totals over rows with an LGA, not over all filtered rows (`Dashboard.Run`).

## Model

| member | source | states |
|---|---|---|
| `Frame.Select` | emrdashboard.py:44 | Boolean-mask selection: the result is a subsequence of the rows; a row is in it iff it is in the input and passes the mask; each passing row keeps its multiplicity and each failing row is dropped |
| `Frame.SelectAll` | emrdashboard.py:42 | When every row passes the mask, selection returns the frame unchanged |
| `Frame.SelectCongruent` | emrdashboard.py:44 | Two masks that agree on every row select the same rows |
| `Frame.SelectFuse` | emrdashboard.py:42-48 | Narrowing by one mask and then by another equals narrowing once by their conjunction |
| `Cascade.Load` | emrdashboard.py:17 | After loading, every row has a FacilityName; every raw row with one is kept, as often as it occurred, in the original order |
| `Cascade.Values` | emrdashboard.py:24 | The values of a key column over rows that all have one: one value per row, the i-th being row i's cell |
| `Cascade.NonNullKeys` | emrdashboard.py:24 | `dropna()` on a key column: one value per row with a non-empty cell, in row order with repeats (the i-th value is the cell of the i-th such row), so exactly the non-empty values of that column |
| `Cascade.FirstIndex` | emrdashboard.py:24 | The position of a value's first occurrence: it holds the value and no earlier position does |
| `Cascade.FirstIndexExtend` | emrdashboard.py:24 | Appending a value does not move the first occurrence of a value already present |
| `Cascade.Unique` | emrdashboard.py:24 | `unique()`: no duplicates, exactly the values of the input, and in order of first appearance (one value precedes another iff it first occurs earlier) |
| `Cascade.Options` | emrdashboard.py:24 | The options of a key column are distinct, are exactly the values that occur non-empty in that column, and are listed in order of first appearance |
| `Cascade.StateOptions` | emrdashboard.py:24 | The State options are distinct and are exactly the non-empty States of the loaded sheet |
| `Cascade.LgaStage` | emrdashboard.py:28 | `df_lga` is the sheet narrowed by the State selection alone (the whole sheet when no State is chosen) |
| `Cascade.LgaOptions` | emrdashboard.py:28-29 | The LGA options are distinct and are exactly the non-empty LGAs of rows whose State is chosen, or of all rows when no State is chosen |
| `Cascade.FacilityStage` | emrdashboard.py:33 | `df_fac` is the sheet narrowed by the State and LGA selections together, each empty selection not filtering |
| `Cascade.FacilityOptions` | emrdashboard.py:33-34 | The Facility options are distinct and are exactly the FacilityNames of rows passing both the State and the LGA selection |
| `Cascade.CascadeNarrows` | emrdashboard.py:28-34 | Choosing States or LGAs never adds an option downstream; with nothing chosen the Facility options are all facility names of the sheet |
| `Dashboard.ApplyFilters` | emrdashboard.py:42-48 | The applied rows are exactly the rows that pass every non-empty selection, in their original order; with all three selections empty the result is the whole sheet |
| `Dashboard.AppliedRowsWithinOptions` | emrdashboard.py:28-48 | Every applied row's LGA is among the LGA options, and its facility among the Facility options, offered for the same State and LGA choices |
| `Dashboard.UnmatchedLgaChoiceEmpties` | emrdashboard.py:28-46 | A non-empty LGA selection that none of the current LGA options match yields an empty result, not an error |
| `Aggregation.Total` | emrdashboard.py:51-61 | A column total is 0 when every row has 0 in that column (in particular over no rows) and non-negative when every count is non-negative |
| `Aggregation.TotalAppend` | emrdashboard.py:51-61 | A column total over two blocks of rows is the sum of the two blocks' totals |
| `Aggregation.TotalKeyInUnion` | emrdashboard.py:86 | The total over rows whose key lies in the union of two disjoint key sets is the sum of the two totals |
| `Aggregation.Percent` | emrdashboard.py:64-65 | The guarded percentage is exactly 0 when the denominator is not positive; otherwise it times the denominator equals 100 times the numerator, and it is at most 100 iff the numerator is at most the denominator |
| `Aggregation.Indicators` | emrdashboard.py:51-65 | The nine column totals (seven shown as KPIs, TX_PVLS_D and TX_PVLS_N only feeding the percentages) are each the column total over the given rows, so all are 0 over no rows; VL coverage is the guarded percentage of TX_PVLS_D over VL eligible, VL suppression that of TX_PVLS_N over TX_PVLS_D |
| `Aggregation.PercentagesInRange` | emrdashboard.py:64-65 | With non-negative counts both percentages are non-negative, and each is at most 100 iff its numerator is at most its denominator, when its denominator is positive (otherwise it is exactly 0) |
| `Aggregation.GroupsFor` | emrdashboard.py:86 | One group per listed key, in the listed order, holding the column total over the rows with that key |
| `Aggregation.GroupTotals` | emrdashboard.py:86 | `groupby(key)[column].sum()`: group keys are distinct and are exactly the non-empty key values; each group's total is the column total over the rows with that key |
| `Aggregation.GroupKeysShared` | emrdashboard.py:92-95 | Grouping the same rows by the same key yields the same keys in the same order whichever column is summed |
| `Aggregation.GroupsForSum` | emrdashboard.py:86 | For distinct keys, the group totals add up to the total over the rows whose key is one of them |
| `Aggregation.GroupTotalsSum` | emrdashboard.py:92-95 | The group totals of a grouped sum add up to the column total over the rows whose key is not empty |
| `Aggregation.FacilityChartMatchesTxCurr` | emrdashboard.py:86 | On loaded rows the TX_CURR-by-facility bars add up to the TX_CURR KPI |
| `Aggregation.Preview` | emrdashboard.py:112 | The preview is the prefix of the filtered rows of length min(100, number of filtered rows) |
| `Dashboard.Run` | emrdashboard.py:16-112 | After load and apply: the KPIs are those of the applied rows; the facility chart is the per-facility TX_CURR group totals; the three per-LGA series are the group totals of TX_PVLS_D, TX_PVLS_N and VL Eligible from which the two per-LGA percentage charts are drawn, sharing the same keys in the same order; the facility chart adds up to the TX_CURR KPI, and each per-LGA series to its column total over rows with an LGA; the preview is the first min(100, n) applied rows |
| `Dashboard.ExampleStateA` | emrdashboard.py:42-65 | Two rows in States A and B: choosing A keeps A's row, with TX_CURR 10, VL coverage 80% and VL suppression 50% |
| `Dashboard.ExampleStateB` | emrdashboard.py:42-65 | Choosing B keeps B's row, whose zero denominators give 0% for both percentages |

## Left out

- Page setup, sidebar widgets, the Apply button, the info and error messages and the download button (emrdashboard.py:6-7, 20-38, 119-124): user-interface plumbing. The selections are parameters of the model.
- Reading the Excel sheet with `pd.read_excel` and the `@st.cache_data` caching (emrdashboard.py:10-12, 115): file input and framework caching. The raw rows are a parameter of `Dashboard.Run` and stand for the cells as the reader returns them, with empty and NA-like strings already turned into NaN (`None`).
- The `FileNotFoundError` handler (emrdashboard.py:126-127): file-system error plumbing.
- Building and drawing the Plotly charts (emrdashboard.py:87-88, 97-98, 107-108): a rendering library. The model stops at the group totals the charts are drawn from.
- The per-LGA ratio columns (emrdashboard.py:96, 106): they divide without a zero guard and produce floating-point NaN or infinity for a zero denominator, which the model does not represent. Their numerator and denominator group totals are modelled.
- KPI text formatting with thousands separators and one decimal place (emrdashboard.py:70-80): floating-point formatting.
- CSV export with `to_csv` (emrdashboard.py:116-117): serialisation by the tabular library. The filtered rows it serialises are `Report.filtered`.
- Aggregation.GroupTotals: groups are listed in order of first appearance, while pandas `groupby` sorts the keys. Only the order of the bars differs; keys and totals are the same.
- Aggregation.Percent: computed in exact rational arithmetic, not IEEE double precision, so rounding is not modelled.
- Aggregation.Total: count cells are integers. An empty count cell (NaN, which `sum()` skips) and non-integer counts are not modelled. Totals are unbounded integers, while pandas sums an integer column as a 64-bit integer that wraps around silently on overflow; facility counts are far below that bound.
- Columns of the sheet other than the three keys and nine counts: they are carried through to the preview and the CSV but take no part in any computation, so `Row` omits them.
