# VizDat `data_dist`: a verified model of feature selection and grid layout

VizDat's `main.py` plots one histogram per numeric column of a pandas DataFrame.
The histograms sit in a grid of subplots, and each can carry a kernel density
curve. Under the plotting calls there are three pieces of discrete logic. This
project models them in Dafny and proves what they promise:

- **Input validation** (`validate_data`). `data` must be a DataFrame. `None` and a
  Series are rejected with a `ValueError`. Any other value is rejected with a
  `TypeError`.
- **Feature selection** (`excluded_features`). The optional `include` and
  `exclude` arguments are validated first, `include` before `exclude`. Each must
  be a list, and every name in it must be a column of the table. Then a base list
  is chosen: a non-empty `include`, which must be all numeric, or else every
  numeric column in table order. Names in `exclude` are removed from it, and with
  `exclude_binary` so are columns with exactly two distinct values. Every step is
  an order-preserving filter.
- **Grid layout** (`data_dist`). An empty selection is rejected. Otherwise, for
  `n` features the grid has `cols = ceil(sqrt(n))` columns and
  `rows = ceil(n / cols)` rows. Feature `i` is drawn into cell `i`, and cells
  `n .. rows*cols-1` are deleted from the figure.

The table is abstract. It is a sequence of columns, and each column has a name, a
numeric-dtype flag and a count of its distinct values. `include` and `exclude` are
each `Absent`, `NotAList` or `List(names)`. Every `raise` becomes an `Err` carrying
an `Error` variant. `Errors.Raises` maps each variant to the Python exception class
the code raises.

Files:

- `errors.dfy`: the errors and result types.
- `seqs.dfy`: `Filter` (a list comprehension with an `if`), `Subseq`, and lemmas
  about them.
- `table.dfy`: the table, and the column lookup `data[f]`.
- `validation.dfy`: `validate_data`.
- `selection.dfy`: `excluded_features`, its steps and its properties.
- `selection_examples.dfy`: the documented selections, shown on a four-column
  sample table.
- `grid.dfy`: the grid arithmetic.
- `render.dfy`: `data_dist` as a method over an array of subplot cells, and the
  function that specifies it.

Every failure raises `ValueError` except a non-DataFrame `data`, which raises
`TypeError`. The `Error` variants keep the messages apart, and `Raises` gives the
exception class.

## Model

| member | source | states |
|---|---|---|
| `Validation.ValidateData` | main.py:7-21 | passes exactly for a DataFrame; `None` gives the None error and a Series gives the Series error, both ValueErrors; any other value gives a TypeError |
| `Tables.Names` | main.py:71 | `data.columns` lists the names of the table's columns, one per column, in table order |
| `Tables.Find` | main.py:64 | `data[name]` finds a column exactly when `name` is one of the table's column names, and the column it finds has that name |
| `Tables.FindFirst` | main.py:64 | when several columns share a name, `data[name]` is the first of them |
| `Tables.IsNumeric` | main.py:42-44 | `is_numerical(data[name])` reads the dtype flag of the first column called `name`; an absent name is never numeric |
| `Tables.DistinctCount` | main.py:79 | `len(data[name].unique())` is the distinct-value count of the first column called `name`; 0 for an absent name |
| `Selection.Missing` | main.py:50 | the not-found list holds exactly the listed names that are not columns, in the list's order, each as often as it is listed |
| `Selection.CheckParam` | main.py:47-59 | a parameter passes exactly when it is absent or a list of existing column names; a non-list gives that parameter's not-a-list error; a list with unknown names gives a not-found error listing every unknown name, in order |
| `Selection.NumericIn` | main.py:64 | `valid_features` holds exactly the names of `include` that are numeric |
| `Selection.NonNumericalNames` | main.py:64-68 | `set(include) - set(valid_features)` equals the set of non-numeric included names; when that set is empty, `valid_features` is `include` itself |
| `Selection.NumericColumns` | main.py:71 | the default base holds exactly the numeric column names and follows table order |
| `Selection.BaseFeatures` | main.py:61-71 | with a non-empty `include`, succeeds exactly when all its names are numeric, and then returns `include` unchanged; otherwise fails with the set of non-numeric names; with no or an empty `include`, returns the numeric columns |
| `Selection.ApplyExclude` | main.py:73-75 | keeps a feature exactly when it is not in `exclude`, keeps the survivors in their order, and keeps every copy of a survivor |
| `Selection.ApplyBinary` | main.py:77-79 | with the flag, keeps a feature exactly when its distinct count is not 2; without the flag, returns the list unchanged; order and every copy of a survivor are preserved |
| `Selection.ExcludedFeatures` | main.py:25-81 | on success every returned name is a numeric column of the table, no excluded name remains, and with the flag no returned feature has two distinct values |
| `Selection.SelectionFailsIff` | main.py:47-68 | selection fails exactly when a parameter is not a list or names an unknown column, or when a non-empty `include` names a non-numeric column |
| `Selection.SelectionErrors` | main.py:47-67 | errors come in source order: `include` not a list, then `include` names missing, then `exclude` not a list, then `exclude` names missing, then non-numeric included names, each reporting every offending name |
| `Selection.EmptyIncludeIsAbsent` | main.py:62 | an empty `include` list selects exactly as an absent one, because the empty list is falsy |
| `Selection.NarrowIsFilter` | main.py:73-79 | the exclusion and binary steps together are one order-preserving filter of the base by `Keep` |
| `Selection.SelectionFromBase` | main.py:61-79 | a successful selection is the exclusion and binary steps applied to `Base` |
| `Selection.SelectionIsFilter` | main.py:61-81 | a successful result is a subsequence of the base; a name is in it exactly when it is in the base and survives `exclude` and the flag; every copy of a surviving name is kept and nothing else is removed |
| `Selection.IncludeOrder` | main.py:62-68 | with a non-empty `include`, the result is drawn from `include`, in `include`'s order |
| `Selection.DefaultOrder` | main.py:69-71 | with no or an empty `include`, the result follows the table's column order |
| `Selection.NumericColumnsExact` | main.py:71 | when column names are distinct, the default base holds exactly the names of the numeric columns |
| `Selection.BinaryExclusion` | main.py:77-79 | with the flag, a base feature that is not excluded survives exactly when its distinct count is not 2, so counts 1 and 3 or more are kept |
| `Selection.NoBinaryExclusion` | main.py:77-81 | without the flag, only `exclude` filters the base |
| `SelectionExamples.IncludeExcludeExample` | main.py:62-75 | on the sample table, `include=["a","b"]` with `exclude=["b"]` selects exactly `["a"]` |
| `SelectionExamples.DefaultExamples` | main.py:69-79 | on the sample table, the default selection is `["a","b","d"]`; with `exclude_binary` it is `["a","d"]` |
| `SelectionExamples.ParameterExamples` | main.py:47-59 | on the sample table, `include=["z"]` fails listing `["z"]`; a non-list `exclude` fails with the exclude error |
| `SelectionExamples.NonNumericExample` | main.py:62-67 | on the sample table, `include=["a","c"]` with non-numeric `c` fails, reporting `{"c"}` |
| `SelectionExamples.SampleTableShape` | main.py:25-81 | a concrete table has the sample shape (columns a, b, c, d; a, b and d numeric; b binary), so the example lemmas apply to a real table |
| `Grid.GridCols` | main.py:106 | `num_cols` is at least 1 and is the least column count whose square grid holds `n` cells |
| `Grid.CeilSqrt` | main.py:106 | `ceil(sqrt(n))` is the least `c >= 1` whose square is at least `n` |
| `Grid.CeilSqrtLeast` | main.py:106 | no smaller positive column count fits `n` cells in a square |
| `Grid.GridRows` | main.py:107 | `ceil(n / cols)` is the fewest rows of `cols` cells that hold `n` cells |
| `Grid.GridShape` | main.py:105-107 | the grid holds all `n` features, leaves fewer than `cols` cells unused, and has `cols - 1` or `cols` rows |
| `Grid.GridExamples` | main.py:105-107 | 1 feature gives a 1x1 grid, 5 give 2x3, 9 give 3x3, and 10 give 3x4 |
| `Render.PlaceFeatures` | main.py:103-149 | filling a fresh `rows*cols` array, first feature by feature and then deleting the cells past the last feature, yields exactly `Layout(features)` |
| `Render.LayoutCells` | main.py:115-149 | the figure has `rows*cols` cells, with at least `n` and fewer than `n + cols`; cell `i` shows feature `i`; every later cell is deleted; no blank cell remains |
| `Render.LayoutRows` | main.py:105-149 | no row of the figure is left empty: the first cell of every row shows a feature |
| `Render.DataDist` | main.py:83-149 | the method yields exactly the specified `Render` result: a validation error or a selection error is passed on unchanged; an empty selection gives the empty-selection error and nothing else does; a non-empty selection gives the laid-out figure |
| `Render.RenderErrors` | main.py:96-100 | validation and selection errors propagate unchanged; the empty-selection error is raised exactly when selection succeeds with no features; a figure is produced exactly when there is at least one feature |
| `Render.RenderDrawsNumeric` | main.py:97-124 | every drawn cell shows a numeric column of the table |
| `Render.NoNumericColumnsFails` | main.py:97-100 | a table without numeric columns, with no `include` and an acceptable `exclude`, fails with the empty-selection error |

## Left out

- Drawing is left out: `plt.subplots`, `ax.bar`, titles, tick parameters, `ax.plot`, `suptitle`, `tight_layout` and `show`. A cell records only which feature it shows, or that it was deleted.
- `np.histogram` binning, the `bins` argument, the bin width and the figure size in inches are left out. They are floating-point work done by numpy, and numpy alone decides what `bins <= 0` does.
- Skewness (`Series.skew`) and the KDE fit, evaluation and rescaling are left out, along with the `kde`, `color` and `kde_color` arguments. They are floating-point statistics done by pandas and scipy.
- A failure inside the per-feature loop is left out. In the code it would stop the loop and leave a partly drawn figure.
- `pd.api.types.is_numeric_dtype` and `Series.unique()` are replaced by each column's `isNumeric` flag and `distinctCount`. pandas counts NaN as a distinct value, so the count is taken as given.
- Duplicate column names are not modelled as pandas handles them. Lookup takes the first column with the name, and the lemmas that need distinct names say so.
- The `num_features == 1` wrapping and `flatten()` of the axes are left out. The axes are always a flat sequence of `rows*cols` cells.
- Grid.CeilSqrt: computes `ceil(sqrt(n))` exactly on integers. The code uses floating-point `np.sqrt` and true division, which agree with this for any realistic `n`. They are not modelled.
- List entries are column names, that is strings. The Python lists could hold other values, and these are not modelled.
