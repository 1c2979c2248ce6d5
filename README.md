# Risk Visualizer — a Dafny model of its computational core

Risk Visualizer is a Dash dashboard. A user uploads a spreadsheet of risk drivers, their sub-drivers, status values and thresholds. The dashboard then:

* normalises the spreadsheet's column headers (`parse_contents`);
* classifies every row as low (1), approaching (2) or high (3) risk by comparing its status with its threshold (`determine_risk_index`);
* lets the user rank each driver's sub-drivers with sliders;
* turns those sliders into a pairwise comparison matrix, and that matrix into a priority vector (PV) of weights via the principal eigenvector (`create_charts`, `calculate_priority_vector`);
* names the most important sub-driver of every driver (`render_graphics`);
* combines the priority vector with the risk indices into a cumulative, weighted risk index per driver (`calculate_cumulative_risk_index`).

The model has six modules:

* `RealSeqs`: sums, dot products, scaling and absolute values of real vectors, with the small arithmetic lemmas the other modules use.
* `Grouping`: `DataFrame.groupby` and `Series.unique` over a key column. Each result lists a group's rows in row order.
* `RiskIndex`: the three-band classifier, and the cumulative risk index. The latter is a `RiskFrame` class; its method writes the `Risk Index` column in place and fills the per-driver map in a loop.
* `Pairwise`: slider ids and the default value 1, the slider domain, and the ratio matrix `M[i][j] = s[i]/s[j]`. The module proves the matrix's algebra, including that its only eigenvalues are 0 and n, and that the eigenvectors for n are the multiples of the slider vector.
* `PriorityVector`:
  * `np.argmax` (the first maximum);
  * the absolute-value-and-divide normalisation, as a method over an array that divides in place;
  * the proof that a correct eigen-decomposition of the slider matrix gives the normalised slider vector.
* `Charts`:
  * the group loop of `create_charts`, with the chart data (labels and priority vector) in place of the Plotly figures;
  * the summary-card loop of `render_graphics`;
  * the properties relating charts back to sliders.

The column headers are normalised in module `ColumnNames`: strip, then `'_'` → `' '`, then title case.

Three kernels are copied across files:

* `determine_risk_index` and `process_risk_index` appear in `risk_index_tab.py`, `risk_index_status.py` and `old/risk_index_status.py`.
* `calculate_cumulative_risk_index` appears in `risk_index_tab.py` and `old/risk_index_status.py`.
* `calculate_priority_vector` appears in `weights_tab.py`, `dashboard.py` and `old/weights_mitigations.py`, and `create_charts` in all three.

One definition models each kernel, and the table cites each copy whose code matches it. The copies read differently named columns: the old ones read `Risk_Drivers` or `risk_drivers`, `status`, `threshold`, `pv` and `sub_risk_drivers`. The model takes the columns as parameters, so for the kernels the names do not change the result. They do decide whether a kernel can run at all on a frame from `parse_contents`. `utils.py:12-14` title-cases every header, so no header comes out as `PV` (ColumnNames.PVKeyNeverProduced). `calculate_cumulative_risk_index` reads `group['PV']` at `risk_index_tab.py:36`, and its only caller, `analyze_risk`, builds its frame with `parse_contents` (`risk_index_tab.py:81-83`). So on every non-empty upload the source raises a `KeyError` there. No header comes out as one of the underscore keys the `old/` copies read, either (ColumnNames.UnderscoreKeysNeverProduced).

The `create_charts` of `old/weights_mitigations.py` matches the others only in its sliders, matrix and priority vector (lines 15-18). Its charts fail. Line 21 puts the sub-drivers in a column named `'Sub Risk Drivers'`, and line 24 plots `x='sub_risk_drivers'`. Plotly raises a `ValueError` for the first driver, so that copy never returns a chart map.

`np.linalg.eig` is an oracle. `create_charts` receives it as a function parameter `eig` from matrices to an `Eigen` value holding eigenvalues and eigenvector columns. The predicate `SolverFits` asks only for the right shape and a non-zero eigenvector for the largest eigenvalue. The predicate `ExactOn` adds that the answer is a genuine eigen-decomposition of the slider matrix. The lemmas that relate the weights to the sliders assume `ExactOn`.

On the comment at `utils.py:13`: it says "Replace spaces with underscores", but the code replaces underscores with spaces. The model follows the code.

## Model

| member | source | states |
|---|---|---|
| RiskIndex.DetermineRiskIndex | risk_index_tab.py:18-25 | Result 1 iff status < threshold. Result 2 iff threshold ≤ status ≤ threshold + 10% of threshold, both ends inclusive. Result 3 iff status is above that band. The result always lies in 1..3. The copies at `risk_index_status.py:1-8` and `old/risk_index_status.py:3-10` behave the same. |
| RiskIndex.ProcessRiskIndex | risk_index_tab.py:27-29 | Returns its argument unchanged. The copies at `risk_index_status.py:10-12` and `old/risk_index_status.py:12-14` behave the same. |
| RiskIndex.DetermineRiskIndexMonotone | risk_index_tab.py:18-25 | For a fixed threshold, a higher status never gives a lower index. The copy at `risk_index_status.py:1-8` behaves the same. |
| RiskIndex.ZeroThreshold | risk_index_tab.py:19-25 | A zero threshold raises nothing: negative status gives 1, zero gives 2, positive gives 3. |
| RiskIndex.NegativeThresholdSkipsApproaching | risk_index_tab.py:19-23 | With a negative threshold the middle band is empty, so the result is never 2. |
| RiskIndex.ClassifierExamples | risk_index_tab.py:18-25 | Threshold 100: status 50 gives 1; status 100, 109 and 110 give 2; status 111 gives 3. |
| RiskIndex.RiskIndexColumn | risk_index_tab.py:32 | The `Risk Index` column has one entry per row, and each entry lies in 1..3. |
| RiskIndex.WeightedRiskIndices | risk_index_tab.py:33-41 | The result has exactly one key per distinct driver, and its value is that driver's Σ PV[i]·RiskIndex[i] over the driver's rows. The copy at `old/risk_index_status.py:18-27` behaves the same. |
| RiskIndex.RiskFrame.CalculateCumulativeRiskIndex | risk_index_tab.py:31-41 | Writes the `Risk Index` column in place: one entry per row, each the classifier of that row. It changes nothing else and returns one weighted index per distinct driver. The copy at `old/risk_index_status.py:16-27` behaves the same. |
| RiskIndex.WeightedIndexInRange | risk_index_tab.py:35-39 | If a driver's PV entries are non-negative and sum to 1, its weighted index lies in [1, 3]. The copy at `old/risk_index_status.py:21-25` behaves the same. |
| RiskIndex.WeightedIndexMonotone | risk_index_tab.py:32-38 | With non-negative weights, raising any statuses never lowers a driver's weighted index. |
| RiskIndex.WeightedIndexIgnoresOtherDrivers | risk_index_tab.py:35-39 | Changing another driver's row (its PV or its risk index) leaves a driver's weighted index as it was. |
| Grouping.Rows | risk_index_tab.py:35 | The rows of a group, strictly increasing, each holding the group's key. |
| Grouping.RowsComplete | risk_index_tab.py:35 | Every row holding the key is one of the group's rows, so Rows lists exactly the key's rows, in row order. |
| Grouping.GroupColumn | risk_index_tab.py:35-37 | Entry j of a group's column is the column's entry on the group's j-th row. So it has one entry per row with that key, every entry comes from the column, and two columns of one group line up row by row. |
| Grouping.First | weights_tab.py:115 | The first row holding a key: that row holds it, and no earlier row does. |
| Grouping.FirstAppend | weights_tab.py:115 | Appending rows does not move a key's first row. |
| Grouping.Distinct | weights_tab.py:115 | `unique()`: no duplicates, the same set of keys as the column, and the keys in order of their first rows. |
| Grouping.GroupColumnIgnoresOtherRows | risk_index_tab.py:35-37 | A group's column does not depend on rows of other groups. |
| Grouping.GroupColumnAll | old/risk_index_status.py:21-23 | A property of every row of a group holds for every entry of its column. |
| Pairwise.Sliders | weights_tab.py:28 | One value per sub-driver: the value stored under id `driver-sub`, or 1 when there is none. Positive stored values give positive sliders. The copies at `dashboard.py:30` and `old/weights_mitigations.py:16` behave the same. |
| Pairwise.PairwiseMatrix | weights_tab.py:29 | The matrix is n × n for n sliders. |
| Pairwise.UnitDiagonalReciprocal | weights_tab.py:29 | For non-zero sliders: M[i][i] = 1 and M[i][j]·M[j][i] = 1. The copies at `dashboard.py:31` and `old/weights_mitigations.py:17` behave the same. |
| Pairwise.SliderMatrixBounded | weights_tab.py:81-86 | Sliders in the widget's domain (whole numbers 1..9) are non-zero, and every ratio lies in [1/9, 9]. |
| Pairwise.ScaleInvariant | weights_tab.py:29 | Multiplying all sliders of a group by c ≠ 0 leaves the matrix unchanged. The copies at `dashboard.py:31` and `old/weights_mitigations.py:17` behave the same. |
| Pairwise.RankOne | weights_tab.py:29 | M·v = (Σ v[j]/s[j])·s for every v: the matrix has rank one. |
| Pairwise.SlidersAreEigenvector | weights_tab.py:29 | M·s = n·s. The copies at `dashboard.py:31` and `old/weights_mitigations.py:17` behave the same. |
| Pairwise.Eigenpairs | weights_tab.py:29 | Any eigenpair (λ, v) with v ≠ 0 has λ = 0 or λ = n. For λ ≠ 0, v is a non-zero multiple of s. |
| PriorityVector.ArgMax | weights_tab.py:19 | `argmax`: an index of a largest entry, and no earlier index holds an equal value. |
| PriorityVector.ArgMaxScale | weights_tab.py:118 | Scaling by a positive constant does not move the argmax. |
| PriorityVector.Shares | weights_tab.py:21 | Dividing a non-negative vector by its non-zero sum keeps its length, keeps entries non-negative, and makes them sum to 1. |
| PriorityVector.SharesScale | weights_tab.py:21 | Scaling a non-negative vector by k > 0 leaves its shares unchanged. |
| PriorityVector.Normalized | weights_tab.py:20-21 | `abs` then divide by the sum: same length, non-negative, sums to 1. The copies at `dashboard.py:22-23` and `old/weights_mitigations.py:9-10` behave the same. |
| PriorityVector.NormalizedScale | weights_tab.py:20-21 | An eigenvector's scale and sign do not matter: Normalized(c·v) = Normalized(v) for c ≠ 0. |
| PriorityVector.NormalizedPositive | weights_tab.py:20-21 | For a positive vector the normalisation is v / Σv. |
| PriorityVector.NormalizedEqual | dashboard.py:22-23 | A vector of equal non-zero entries normalises to 1/n everywhere. |
| PriorityVector.PriorityVectorOf | weights_tab.py:17-22 | The priority vector of a decomposition has one entry per eigenvalue; the entries are non-negative and sum to 1. |
| PriorityVector.CalculatePriorityVector | weights_tab.py:17-22 | Returns a fresh array: the absolute values of the eigenvector of the largest eigenvalue, divided by their sum in place. The copies at `dashboard.py:19-24` and `old/weights_mitigations.py:6-11` behave the same. |
| PriorityVector.SliderPriorityVector | weights_tab.py:17-22 | For any correct decomposition of the slider matrix: the largest eigenvalue is n, and the priority vector equals the normalised slider vector. |
| Charts.GroupPriorityVector | weights_tab.py:27-30 | A driver's priority vector has one entry per row of its group; the entries are non-negative and sum to 1. |
| Charts.ChartOf | weights_tab.py:32-43 | A chart has one label and one value per row of its group (at least one), and every label is one of the sub-drivers. |
| Charts.BarsWithinAxis | weights_tab.py:36-37 | Every bar lies within the fixed y-axis range [0, 1]. |
| Charts.GroupChart | weights_tab.py:28-45 | One pass of the group loop: sliders, matrix, solver, priority vector. The result is that driver's chart. |
| Charts.CreateCharts | weights_tab.py:25-46 | One chart per distinct driver and no other key. Each chart is built from that driver's rows and sliders. The copy at `dashboard.py:27-48` behaves the same. In `old/weights_mitigations.py` only the slider, matrix and priority-vector steps (lines 15-18) match, and line 24 raises. |
| Charts.SummaryOf | weights_tab.py:116-119 | The card names the sub-driver at the first index of the largest PV entry, and shows that entry. |
| Charts.SummaryCards | weights_tab.py:115-125 | One card per listed driver, in the order given, each the summary of that driver's chart. |
| Charts.RenderGraphics | weights_tab.py:107-119 | Builds the charts, then one card per distinct driver in order of first appearance, each the summary of that driver's chart. |
| Charts.ChartFollowsSliders | weights_tab.py:28-30 | With an exact solver, sub-driver i gets weight s[i] / Σ s. |
| Charts.EqualSlidersEqualWeights | weights_tab.py:28-30 | With an exact solver and equal sliders, every sub-driver gets weight 1/n. |
| Charts.DefaultSlidersEqualWeights | weights_tab.py:81-86 | Sliders left at the starting value 5 give every sub-driver weight 1/n. |
| Charts.DashboardEqualWeights | dashboard.py:98-99 | With the empty slider dict every slider is 1, and every weight is 1/n. |
| Charts.MostImportantIsTopSlider | weights_tab.py:118-119 | With an exact solver, the most important sub-driver is the first one with the highest slider. |
| Charts.ChartIgnoresOtherSliders | weights_tab.py:28 | A slider whose id belongs to no sub-driver of a group does not change that group's chart. |
| Charts.SliderKeysCanCollide | weights_tab.py:82 | The ids `driver-sub` of different pairs can coincide ("a-b"+"c" and "a"+"b-c"). |
| ColumnNames.StripSpec | utils.py:12 | `strip()` removes exactly the leading and trailing white space and keeps the middle part. |
| ColumnNames.ReplaceUnderscoresSpec | utils.py:13 | Every `'_'` becomes `' '` and no other character changes. |
| ColumnNames.TitleSpec | utils.py:14 | Each character is title-cased by the character before it: the start or a non-letter before it makes a letter upper case, and a letter before it makes it lower case. |
| ColumnNames.TitleIsTitled | utils.py:14 | In the result, a letter is upper case exactly when it starts the name or follows a non-letter. |
| ColumnNames.NormalizeNameShape | utils.py:12-14 | The result has the stripped name's length and no `'_'`. It differs from the stripped name only in letter case and in underscores turned into spaces. |
| ColumnNames.NormalizeNameTitled | utils.py:12-14 | The normalised header is title-cased. |
| ColumnNames.TitleIdempotent | utils.py:14 | Title-casing twice equals title-casing once. |
| ColumnNames.NormalizeNameIdempotent | utils.py:12-14 | Normalising twice equals normalising once when the stripped header neither starts nor ends with `'_'`. |
| ColumnNames.NormalizeNameNotIdempotent | utils.py:12-14 | Otherwise it is not: `"_x"` gives `" X"`, which gives `"X"`. |
| ColumnNames.SubRiskDriversExample | utils.py:12-14 | `"sub_risk_drivers"` becomes `"Sub Risk Drivers"`. |
| ColumnNames.RiskDriversExample | utils.py:12-14 | `"risk_drivers"` and `"Risk_Drivers"` become `"Risk Drivers"`. |
| ColumnNames.ThresholdExample | utils.py:12-14 | `"  Threshold "` becomes `"Threshold"`. |
| ColumnNames.PVKeyNeverProduced | utils.py:14 | No header ever normalises to `PV`, the key read at `risk_index_tab.py:36`: title case lowers a letter that follows a letter, so the result can be `Pv` but never `PV`. |
| ColumnNames.UnderscoreKeysNeverProduced | utils.py:13 | No header ever normalises to the underscore keys `old/` reads (`risk_drivers`, `Risk_Drivers`, `sub_risk_drivers`, `risk_index`). |
| ColumnNames.NormalizeColumns | utils.py:12-14 | The three whole-column assignments keep the column count and order, and normalise every header on its own. |

## Left out

Framework, I/O and other files:

- Base64 decoding and `pd.read_excel` (`utils.py:7-9`, `dashboard.py:14-16`) are I/O. The model starts from the parsed columns.
- The `print` calls are left out.
- Dash layouts, callbacks, `dcc.Store`/`dcc.Upload` and the card styling are UI.
- The Plotly figures are UI. A `Chart` keeps only the labels and values that both figures plot. Because plotting is not modelled, the `ValueError` of `old/weights_mitigations.py:24` and `:31` is not modelled: they plot `'sub_risk_drivers'` from a frame whose column is named `'Sub Risk Drivers'`.
- `process_weights_data` (`weights_tab.py:11-14`) is a mock that the charts do not use.
- mitigation.py is static text.
- summary_tab.py is UI callbacks with a save stub.
- main.py is wiring. Its import of `weights_mitigations` (`main.py:12`) names a module that exists only under `old/`. Its import from `risk_index_status` (`main.py:13`) fails at the top level, because `risk_index_status.py` has no `calculate_cumulative_risk_index`. It also calls `create_charts` with one argument, and has sliders that allow 0. None of it is part of this model.
- The two context scripts `Risk Index Status.py` and `old/Risk Visualizer - Weights and Mitigations.py` are not part of this model.

Arithmetic and the solver:

- Floating point: all numbers are exact reals. Band boundaries follow exact decimal arithmetic, so `threshold * 0.10` has no rounding and `/=` is exact division.
- `np.linalg.eig` is not modelled. PriorityVector.PriorityVectorOf works on whatever decomposition the `eig` parameter returns.
- Complex eigenvalues and numpy's ordering of complex numbers in `argmax` are not modelled. The `Eigen` values are real.
- Charts.CreateCharts: requires every slider value to be positive (`PositiveSliders`). A zero slider makes Python raise `ZeroDivisionError`, and the weights-tab sliders never go below 1. Negative values, which no slider produces, are excluded too.
- Charts.CreateCharts: requires the solver to return a non-zero eigenvector for the largest eigenvalue (`SolverFits`). With an all-zero vector, Python would divide 0 by 0 and produce NaN weights, and NaN is not modelled.
- Charts.ChartFollowsSliders: holds only for a solver that answers exactly (`ExactOn`).
- Charts.EqualSlidersEqualWeights, Charts.DefaultSlidersEqualWeights, Charts.DashboardEqualWeights and Charts.MostImportantIsTopSlider: also hold only when the solver answers exactly. A float solver's answer only approximates these weights.

Grouping and text:

- Charts.CreateCharts: builds a map, so the sorted iteration order of `groupby` is not modelled. No modelled result depends on it. The source does depend on it in two places: `dashboard.py:100` lists the bar charts, and `risk_index_tab.py:86` lists the bars of the cumulative chart, in the dicts' insertion order, which is `groupby`'s sorted key order. Those lists are UI and are not modelled. The summary cards follow `unique()` order (first appearance), as the source does.
- RiskIndex.RiskFrame.CalculateCumulativeRiskIndex: the model assumes the frame has a `PV` column. The `KeyError` that `group['PV']` raises at `risk_index_tab.py:36` is not modelled. In the app it always raises, because `parse_contents` never produces that header (ColumnNames.PVKeyNeverProduced), so the method describes a frame the app never builds.
- NaN group keys, which `groupby` drops, are not modelled. Keys are strings.
- ColumnNames.Strip: treats only ASCII white space as white space (tab, newline, vertical tab, form feed, carriage return, the separators 28-31, and space). Python's `str` methods also treat some Unicode spaces as white space.
- ColumnNames.Title: only ASCII letters are letters, and case mapping is ASCII only. Python's `str.title()` applies Unicode rules.

Features no source file implements, none modelled: a cross-assessment mean or standard deviation, top-N rankings, dispersion labels, a `SchemaError` (the only column check is the "Required columns are missing." message at `main.py:42-43`, in wiring this model leaves out), and an error for a zero threshold. The code accepts a zero threshold (RiskIndex.ZeroThreshold).
