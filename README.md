# smretriever client core, modelled in Dafny

`smretriever` is a Python client that fetches SurveyMonkey data through an embedded R
runtime (rpy2 and R's `surveymonkey` package). Almost all of its work is done by R. This
project models the three parts of `smretriever/client.py` that run in Python, and treats
every call into R as an opaque oracle.

* **Missing-value reconciliation** (`SurveyMonkeyClient._replace_r_na_with_pandas_na`).
  This pass walks the columns of the R result. Each column's class (`rclass[0]`) picks a
  branch: `numeric`/`integer`, `character`, `logical` or `factor`. The branch then walks
  the cells. Each cell that counts as missing for its class is overwritten, in the pandas
  frame, with `np.nan` (numeric branch) or `pd.NA` (all other branches). Each cell's
  read, test and write sit in one `try`; a cell for which any of them raises is logged
  and keeps its value. The model's writes never raise (see "## Left out").
  - `Frames` holds the data model. `RValue` is one rpy2 cell: one of the four NA
    sentinels, an ordinary value, a factor code, or a cell whose read raises. `RColumn`
    is one R column. `DataFrame` is the pandas frame as a class, with label-indexed
    columns; `FromR` builds it as `pd.DataFrame(dict(zip(...)))` does, and `SetCell`
    is `df.loc[j, name] = v`.
  - `NAReconciliation` gives the pass as functions on values. `Check` is the per-cell
    test of each branch, `MarkColumn` is one column's walk, and `Reconcile` walks all R
    columns front to back. The lemmas state the properties cell by cell.
  - `SurveyClient.ReplaceRNAWithPandasNA` is the nested loop itself. It updates the
    frame in place, and its contract ties the new columns to `Reconcile`.
* **Bulk fetch** (`download_multiple_surveys`). This loop calls the single download once
  per id and fills a dictionary. `outcomes[i]` stands for whatever the i-th download did:
  it returned a frame, or it raised. `BulkFetch.Collected` is the resulting dictionary,
  and its lemmas give its keys, its entries (the last outcome for an id wins) and its size.
* **Package cache** (`RPackageManager`). `import_package` returns a cached handle if
  there is one. Otherwise it imports the package; if that raises, it installs the package
  once and imports it again; then it caches the handle. A `Responses` value says what the
  R calls `importr` and `install_packages` answer. A ghost `calls` log records the calls
  made. `ImportPlan` is the whole call as a value, and `ImportPackage` on the class is
  proved against it.

Modelling choices for the factor branch's test `value <= 0`:
- A factor code is compared with zero.
- rpy2 stores `NA_Integer` and `NA_Logical` as Python integers that hold R's
  `NA_INTEGER`. That is the most negative 32-bit integer, so both count as missing.
- `NA_Real` is a NaN, so the comparison is false and the cell is kept.
- Comparing `NA_Character` or a text value with zero raises, so the cell is skipped.
- `Ordinary` stands for any present value (number, string or boolean). rpy2 reads a
  factor's cells as codes or `NA_Integer` only, so the verdict on an `Ordinary` cell in a
  factor column is never reached from real data; it is taken to be text.

## Model

| member | source | states |
|---|---|---|
| `Frames.FirstNames` | smretriever/client.py:122 | the converted frame's labels are exactly the R names, each once |
| `Frames.ConvertedColumns` | smretriever/client.py:122 | the converted frame has one column per R name and, for a rectangular R frame, one cell per R row in each |
| `Frames.ConvertedLastWins` | smretriever/client.py:122 | a label holds the converted cells of the last R vector with that name |
| `Frames.DataFrame.FromR` | smretriever/client.py:122 | the frame built from a rectangular R frame is rectangular, with the labels, columns and row count of the conversion |
| `Frames.DataFrame.SetCell` | smretriever/client.py:161 | `loc[j, name] = v` on an existing label and row changes exactly that cell; labels and index stay, and the frame stays rectangular |
| `NAReconciliation.FactorTest` | smretriever/client.py:187-196 | the factor test `value <= 0` says "missing" for a code exactly when the code is at most zero, and it always gives a verdict |
| `NAReconciliation.Check` | smretriever/client.py:151-196 | no test is made for an unhandled class; in a handled class a raising read is skipped; the numeric and integer branches flag both NA_Real and NA_Integer; the character branch flags exactly NA_Character; the logical branch flags exactly NA_Logical |
| `NAReconciliation.Marker` | smretriever/client.py:161-194 | the marker written is always one of the two host markers: `np.nan` exactly for the numeric and integer branch, `pd.NA` for the character, logical and factor branches |
| `NAReconciliation.MarkColumn` | smretriever/client.py:156-196 | walking one column keeps that column's length |
| `NAReconciliation.ReconcileColumn` | smretriever/client.py:147-196 | handling one R column changes only the pandas column with its name; labels and column lengths are kept |
| `NAReconciliation.Reconcile` | smretriever/client.py:144-198 | the whole pass keeps the set of column labels and every column's length |
| `NAReconciliation.ReconcileElsewhere` | smretriever/client.py:147-161 | a pandas column that no R column names is never written |
| `NAReconciliation.ReconcileAt` | smretriever/client.py:147-196 | with distinct R names, each pandas column ends up marked from its own R column alone |
| `NAReconciliation.ReconcileCell` | smretriever/client.py:154-196 | each visited cell that its branch flags as missing holds the branch's marker; every other cell keeps its value |
| `NAReconciliation.NumericNAsBecomeNaN` | smretriever/client.py:154-161 | in a numeric or integer column, NA_Real and NA_Integer cells both become `np.nan` and every other cell is unchanged |
| `NAReconciliation.CharacterNAsBecomePandasNA` | smretriever/client.py:165-174 | in a character column exactly the NA_Character cells become `pd.NA`; the rest are unchanged |
| `NAReconciliation.LogicalNAsBecomePandasNA` | smretriever/client.py:176-185 | in a logical column exactly the NA_Logical cells become `pd.NA`; the rest are unchanged |
| `NAReconciliation.FactorCodesAtMostZeroBecomePandasNA` | smretriever/client.py:187-196 | in a factor column a code becomes `pd.NA` exactly when it is at most zero, and a missing factor entry (NA_Integer) becomes `pd.NA` |
| `NAReconciliation.UnhandledColumnUntouched` | smretriever/client.py:154-198 | a column whose class is none of the five handled ones is returned untouched |
| `NAReconciliation.RaisingCellUntouched` | smretriever/client.py:157-163 | a cell whose read raises keeps its value, whatever its column's class |
| `NAReconciliation.ReconcileCellAnyNames` | smretriever/client.py:147-196 | with repeated R names too, a cell ends up holding the marker of the last same-named R column that flags it, and otherwise keeps its value |
| `NAReconciliation.RepeatedNameConversion` | smretriever/client.py:122 | converting a character column "q" and then a numeric column "q" keeps only the numeric vector |
| `NAReconciliation.RepeatedNameFirstColumn` | smretriever/client.py:165-172 | on that frame, walking the character column writes `pd.NA` over the converted 5 stored under the shared label |
| `NAReconciliation.RepeatedNameMarksShadowingColumn` | smretriever/client.py:144-198 | on that frame, the shadowed column's NA_Character makes the pass overwrite the present numeric 5 with `pd.NA` |
| `NAReconciliation.ConversionFits` | smretriever/client.py:122-125 | the frame that the conversion builds always fits the R frame it came from, so no `loc` write enlarges it |
| `NAReconciliation.ReconcileIdempotent` | smretriever/client.py:129-198 | running the pass again on its own output changes nothing, with repeated R names as well |
| `SurveyClient.DownloadSurveyData` | smretriever/client.py:119-127 | the new frame is the conversion of the R result, with its R missing values replaced as `Reconcile` says |
| `SurveyClient.ReplaceRNAWithPandasNA` | smretriever/client.py:129-198 | changes the frame in place and returns that same frame; labels and index are kept; the columns become `Reconcile` of the old columns; nothing raises |
| `SurveyClient.ReplaceInColumn` | smretriever/client.py:156-196 | one branch's inner loop writes its marker into exactly the flagged cells of its column |
| `BulkFetch.Entry` | smretriever/client.py:215-220 | a download that returned records its frame; one that raised records `None` |
| `BulkFetch.Collected` | smretriever/client.py:211-221 | the ids folded in order, a later entry for an id replacing an earlier one, so there are never more entries than ids |
| `BulkFetch.CollectedKeys` | smretriever/client.py:211-221 | the dictionary's keys are exactly the ids asked for |
| `BulkFetch.CollectedLastWins` | smretriever/client.py:212-220 | each id maps to the outcome of its last download: the frame, or `None` if that download raised |
| `BulkFetch.CollectedSize` | smretriever/client.py:211-221 | N distinct ids give a dictionary of size N |
| `SurveyClient.DownloadMultipleSurveys` | smretriever/client.py:200-221 | the loop never raises and returns `Collected`: keys are the ids, each id maps to its last outcome, and distinct ids give size N |
| `PackageManager.InitialCache` | smretriever/client.py:238-241 | a new cache holds exactly `utils` and `base`, each under its own name |
| `PackageManager.ImportPlan` | smretriever/client.py:243-265 | a cached name returns its handle with no foreign call; otherwise the name is imported first; install runs if and only if that import raised, and at most once; the call log is exactly one import, or import then install, or import, install and a second import after the install returned; the handle comes from the last import; errors escape only from the install or the retried import; a success caches the handle under the name and leaves all other entries alone |
| `PackageManager.ImportIsMemoised` | smretriever/client.py:255-264 | after a successful import, importing the same name again returns the same handle and calls nothing |
| `PackageManager.RPackageManager.constructor` | smretriever/client.py:228-241 | the manager starts with `utils` and `base` cached, having imported each once |
| `PackageManager.RPackageManager.ImportPackage` | smretriever/client.py:243-265 | the result, the new cache and the calls made are those of `ImportPlan`; the cached `utils` and `base` entries never change |

## Left out

- Runtime bootstrap in `SurveyMonkeyClient.__init__` (lines 14-67): the `R_HOME` variable, the path check, the rpy2 imports, the four package imports, the OAuth option string and the `sys.exit(1)` on failure. This is environment setup and process control.
- `get_available_surveys`, `filter_surveys` and the R half of `download_survey_data` (lines 69-127). They evaluate R source text against code that is not part of this model. The bulk fetch takes the single download's outcome as an input.
- The conversion `pd.DataFrame(dict(zip(names, list(r_df))))` is modelled by what it yields: the labels in first-occurrence order, and for each label the last R vector with that name, cell by cell as `Converted`. How pandas converts each rpy2 value is left out; a converted cell is opaque.
- DataFrame.FromR: requires a rectangular R frame. An R data frame always is; pandas' `ValueError` on columns of unequal length is not modelled.
- ReplaceRNAWithPandasNA: requires every R column name to be a label of the frame, and no R column to be longer than the frame. The `.loc` writes then never enlarge the frame. pandas' enlargement (a new row or column) is not modelled; from the only caller, the frame is the conversion of the same R frame, so it cannot happen.
- The per-class lemmas assume distinct R column names. `Reconcile` and `ReconcileCellAnyNames` follow the code for repeated names too: every R column writes into the pandas column that carries its name, which after conversion may hold another vector's cells (`RepeatedNameMarksShadowingColumn`).
- pandas dtype changes when a marker is written (an integer column becomes float, for example), and the float meaning of `np.nan`. Both markers are opaque values.
- ReplaceInColumn: a `loc` write that raises (for example when a pandas version refuses to upcast the column's dtype for the marker) is caught by the same `except Exception` as the read and the test, and the cell keeps its value. The model's writes (`DataFrame.SetCell`) always succeed, so `Raised` covers only a failing read or test, and the model does not capture a cell that stays unmarked because its write failed.
- `print` logging of progress and of caught errors.
- DownloadMultipleSurveys: the dictionary is a Dafny `map`, so the insertion order of a Python `dict` is not modelled.
- DownloadMultipleSurveys: the loop catches `Exception` only, so `KeyboardInterrupt` and `SystemExit` escape it. The model has no such exceptions and records every failed download as `None`.
- DownloadSurveyData: the R code that fetches, parses and filters the survey is left out; its result is the input.
- RPackageManager.constructor: its own imports of `utils` and `base` are taken to succeed. If they raise in the source, the constructor raises; that path is not modelled.
- `import_package` uses a bare `except:`, which also catches non-`Exception` interrupts. The model only distinguishes "the call raised" from "it returned".
- The unused `na_types` dictionary (lines 43-49), `examples/basic_usage.py`, `setup.py` and `smretriever/__init__.py`.
- Survey ids are modelled as integers, following the `download_survey_data` docstring.
