# EMB-120 zero-net takeoff limit (ZNTOL) calculator — Dafny model

The calculator works out how heavy an EMB-120 may be at takeoff. The inputs are
an ISA temperature deviation, a minimum safe altitude (MSA) on the route, and
the fuel burned before the obstacle. The model, in Dafny 4.11, has two
independent parts, as the program has:

- **The performance grid** (`weight_grid.dfy`, `grid_build.dfy`, `grid_examples.dfy`).
  - The grid is 11 ISA deviations by 14 MSAs. It starts with every cell missing.
  - The high-altitude chart is written into the 19000–26000 ft columns.
  - The low-altitude chart then overwrites the cells it lists.
  - Every cell is then replaced by the mean of the present values in its 3x3
    neighbourhood. Off-grid positions count as missing.
  - `WeightGrid` states each step as a function on `seq<seq<Option<real>>>`
    (`None` is a NaN cell) and proves the fill and mean properties there.
  - `GridBuild` performs the same steps on an `array2` with loops. Each
    method is proved to produce exactly its `WeightGrid` counterpart.
  - `GridExamples` checks the calculator's own charts at a few cells.
- **`calculate_zntol`** (`zntol.dfy`, `interp.dfy`): a pure decision pipeline.
  1. Input checks.
  2. Effective MSA (MSA less 1000 ft).
  3. The structural-limit short-circuit.
  4. Nearest-ISA row selection.
  5. Piecewise-linear interpolation with end-segment extrapolation, the
     behaviour of `interp1d(kind='linear', fill_value="extrapolate")`.
  6. The fallback for sparse rows.
  7. The cold/high pull-down.
  8. The clamp to [4600, 26433].
  9. The fuel add-back with its cap and `capped` flag.

  Supporting modules:
  - `Interp` defines sorted keys and nearest-key choice. Python's `min`
    keeps the first of equals.
  - `Interp` also defines the search-and-segment interpolation and proves
    its properties.
  - `Common` holds `Option`, `Abs`, `Min` and `Max`.

The grid is never read by `calculate_zntol`: the spline built from it is
unused. The two parts are therefore verified separately.

Weights and altitudes are Dafny `real`s, not floats. The outputs are the
values before `round()`.

The table that `calculate_zntol` reads (`all_points`) is never defined in the
program. It is a parameter here: a map from ISA deviation to (MSA → weight).

If the interpolation path is reached with an empty table, Python's `min()`
raises. The model returns the error `NoIsaRows` instead.

The comment on the last step (line 66) says it fills NaNs with the nearest
value. The code at line 70 does not. It replaces every cell, known ones
included, by a neighbourhood mean. A cell
whose whole 3x3 neighbourhood is missing stays missing. An example is ISA −20 at 8000 ft (`GridExamples.CornerStaysMissing`).
The model follows the code.

## Model

| member | source | states |
|---|---|---|
| Zntol.CalculateZntol | emb120_zntol_streamlit.py:77-130 | Each error holds exactly when its condition does. The conditions are checked in the order ISA range, MSA range, negative fuel, then empty table on the lookup path. On success: effective MSA is msa − 1000; 4600 ≤ w ≤ 26433; w ≤ zntol ≤ 26433; zntol ≤ w + fuel; `capped` holds iff w + fuel > 26433; uncapped means zntol = w + fuel, capped means zntol = 26433 |
| Zntol.Validate | emb120_zntol_streamlit.py:78-83 | No error iff ISA in [−20, 30], MSA in [8000, 26000] and fuel ≥ 0. An out-of-range ISA is reported first, then MSA, then negative fuel; the empty-table error never comes from these checks |
| Zntol.ValidationPrecedesLookup | emb120_zntol_streamlit.py:78-83 | A rejected query fails whatever the table (the checks come before any lookup) |
| Zntol.StructuralShortCircuit | emb120_zntol_streamlit.py:85-93 | Up to MSA 16000 (effective 15000, boundary included), w and zntol are both 26433 and the source is the structural limit, whatever the ISA or table; capped iff fuel > 0 |
| Zntol.AboveThresholdInterpolates | emb120_zntol_streamlit.py:91-116 | Above the threshold with a non-empty table, the source is the nearest row. It is marked as a fallback iff the row has fewer than 2 points, and as pulled down iff it interpolated cold and high |
| Zntol.SparseRowFallsBack | emb120_zntol_streamlit.py:104-107 | A nearest row with fewer than 2 points gives w = 26433 |
| Zntol.SampledAltitudeIsExact | emb120_zntol_streamlit.py:100-118 | At a sampled effective MSA, w is that sample, less the pull-down where it applies, then clamped |
| Zntol.RawAtSample | emb120_zntol_streamlit.py:100-116 | Before the clamp, the weight at a sampled effective MSA is the sample less any pull-down |
| Zntol.InterpolatedBetweenSamples | emb120_zntol_streamlit.py:100-110 | Between two adjacent samples of the nearest row, the interpolated weight lies between them |
| Zntol.RawObstacleWeight | emb120_zntol_streamlit.py:91-116 | There is no weight exactly when the query is above the structural threshold and the table is empty |
| Zntol.PullDownNeverRaises | emb120_zntol_streamlit.py:109-116 | The weight never exceeds the interpolated value, and equals it when the pull-down does not apply |
| Zntol.WeightFallsWithAltitude | emb120_zntol_streamlit.py:85-118 | When the nearest row's weights never rise with MSA, w never rises with MSA across the accepted range |
| Zntol.RawFallsWithAltitude | emb120_zntol_streamlit.py:91-118 | The same monotonicity for the clamped raw weight, on every path (structural, fallback, interpolated) |
| Zntol.EffectiveMsa | emb120_zntol_streamlit.py:85 | msa − 1000 above 6000 ft; msa itself otherwise |
| Zntol.PullDown | emb120_zntol_streamlit.py:113-116 | The pull-down is ≥ 0; it is 0 for ISA ≥ −10 and −150·(isa + 10) below; it is 1500 at −20 |
| Zntol.ClampWeight | emb120_zntol_streamlit.py:118 | The result lies in [4600, 26433]. In-range values are unchanged; values below or above are raised or lowered to the bound |
| Zntol.ClampMonotone | emb120_zntol_streamlit.py:118 | The clamp preserves order |
| Zntol.AddFuel | emb120_zntol_streamlit.py:120-126 | zntol ≤ 26433 and zntol ≤ w + fuel; it is one of the two; capped iff w + fuel > 26433 |
| Zntol.ClosestIsa | emb120_zntol_streamlit.py:96-97 | The chosen key is one of the table's keys |
| Zntol.ClosestIsaIsNearest | emb120_zntol_streamlit.py:96-97 | The chosen key minimises \|key − isa\| over the table, and is the lowest of equally near keys |
| Zntol.ClosestKeyIsLeast | emb120_zntol_streamlit.py:96-97 | Over sorted keys, the first minimal index gives a nearest key, the lowest on a tie |
| Zntol.RowWeights | emb120_zntol_streamlit.py:100-102 | The k-th weight is the row's weight at the k-th sorted MSA |
| Interp.SortedKeys | emb120_zntol_streamlit.py:96 | `sorted(keys)`: strictly ascending, the same elements, each once |
| Interp.Least | emb120_zntol_streamlit.py:96 | The least element of a non-empty key set |
| Interp.ClosestIndex | emb120_zntol_streamlit.py:97 | `min(key=abs(x − t))`: an index of minimal distance; every earlier index is strictly farther |
| Interp.ClosestTieGoesLow | emb120_zntol_streamlit.py:97 | Over ascending keys, a key as near as the chosen one is not lower than it |
| Interp.SearchLeft | emb120_zntol_streamlit.py:109-110 | `searchsorted(side='left')`: every earlier sample is below x, and the sample at the index is ≥ x |
| Interp.Segment | emb120_zntol_streamlit.py:109-110 | The evaluated segment, `clip(searchsorted(x), 1, n − 1) − 1`, is valid and is the one holding x, or the first segment when x is at or below the first sample, or the last when x is above the last sample |
| Interp.InterpolateAtKnot | emb120_zntol_streamlit.py:109-110 | At a sampled MSA the interpolant returns the sample exactly |
| Interp.InterpolateBetween | emb120_zntol_streamlit.py:109-110 | Inside a segment the interpolant lies between its two samples |
| Interp.Interpolate | emb120_zntol_streamlit.py:109-110 | `interp1d(kind='linear', fill_value="extrapolate")`: below the second sample the first segment's line is used; above the last but one, the last segment's line |
| Interp.InterpolateOnSegment | emb120_zntol_streamlit.py:109-110 | Between any two neighbouring samples the interpolant is the straight line through them (`kind='linear'`) |
| Interp.InterpolateMonotone | emb120_zntol_streamlit.py:109-110 | Non-increasing samples give a non-increasing interpolant, extrapolated ends included |
| Common.Abs | emb120_zntol_streamlit.py:97 | \|x\| ≥ 0 and equals x or −x |
| Common.Min | emb120_zntol_streamlit.py:118-121 | At most both arguments, and one of them |
| Common.Max | emb120_zntol_streamlit.py:114-118 | At least both arguments, and one of them |
| WeightGrid.EmptyGrid | emb120_zntol_streamlit.py:23 | An all-missing rows × cols grid |
| WeightGrid.Find | emb120_zntol_streamlit.py:45-63 | `list.index` / first `np.where` hit: a position holding x; none iff x is absent |
| WeightGrid.FindIsFirst | emb120_zntol_streamlit.py:45-63 | No earlier position holds x |
| WeightGrid.FindAt | emb120_zntol_streamlit.py:45-63 | Without repeats, each element is found at its own position |
| WeightGrid.HighDataFitsAxes | emb120_zntol_streamlit.py:26-46 | Every row of the calculator's high chart covers the indices the fill reads |
| WeightGrid.HighFill | emb120_zntol_streamlit.py:40-46 | The high fill keeps the grid's dimensions |
| WeightGrid.HighFillOfEmptyHit | emb120_zntol_streamlit.py:40-46 | After the high fill, row isa holds high[isa][k] in the column of the k-th chart altitude |
| WeightGrid.HighFillOfEmptyMiss | emb120_zntol_streamlit.py:40-46 | After the high fill, every other cell is still missing |
| WeightGrid.LowFill | emb120_zntol_streamlit.py:57-64 | The low fill keeps the grid's dimensions |
| WeightGrid.LowFillWritesEntry | emb120_zntol_streamlit.py:57-64 | An entry whose ISA and MSA are both on the grid lands in its cell, overriding what was there |
| WeightGrid.LowFillChangesOnlyEntries | emb120_zntol_streamlit.py:57-64 | A cell that changes is the first on-grid position of some entry |
| WeightGrid.LowFillIgnoresOffGridIsa | emb120_zntol_streamlit.py:58-60 | An entry whose ISA is off the grid writes nothing |
| WeightGrid.LowFillIgnoresOffGridMsa | emb120_zntol_streamlit.py:61-63 | An entry whose MSA is off the grid writes nothing |
| WeightGrid.Window | emb120_zntol_streamlit.py:70 | The footprint has nine positions |
| WeightGrid.CountZeroIffAllMissing | emb120_zntol_streamlit.py:68-69 | No present value iff every value is missing |
| WeightGrid.SumAtLeast | emb120_zntol_streamlit.py:68-69 | A lower bound on each present value bounds the sum below by count × bound |
| WeightGrid.SumAtMost | emb120_zntol_streamlit.py:68-69 | An upper bound on each present value bounds the sum above by count × bound |
| WeightGrid.NanMean | emb120_zntol_streamlit.py:68-69 | `nanmean` is missing iff every value is missing |
| WeightGrid.NanMeanWithin | emb120_zntol_streamlit.py:68-69 | The mean lies within any bounds on the present values |
| WeightGrid.Smoothed | emb120_zntol_streamlit.py:70 | The neighbourhood mean keeps the grid's dimensions |
| WeightGrid.OffsetsCoverSquare | emb120_zntol_streamlit.py:70 | Every offset of the 3x3 square is in the footprint |
| WeightGrid.SmoothedMissingIffNeighbourhoodMissing | emb120_zntol_streamlit.py:70 | A cell is missing after the mean iff its whole 3x3 neighbourhood, off-grid included, was missing |
| WeightGrid.SmoothingKeepsPresentCells | emb120_zntol_streamlit.py:70 | A present cell stays present |
| WeightGrid.SmoothedWithinNeighbourhood | emb120_zntol_streamlit.py:70 | The new value lies within any bounds on the neighbourhood's present values |
| WeightGrid.Unsmoothed | emb120_zntol_streamlit.py:23-64 | Empty grid, high fill, then low fill: the dimensions are kept |
| WeightGrid.BuiltGrid | emb120_zntol_streamlit.py:23-70 | The whole build keeps the axes' dimensions |
| GridBuild.NewGrid | emb120_zntol_streamlit.py:23 | A fresh array of the given shape whose contents are the empty grid |
| GridBuild.FillHigh | emb120_zntol_streamlit.py:40-46 | The nested loops leave the array equal to `HighFill` of its old contents |
| GridBuild.FillLowRow | emb120_zntol_streamlit.py:61-64 | One chart row writes exactly its on-grid columns of row i; every other cell keeps its value |
| GridBuild.FillLow | emb120_zntol_streamlit.py:57-64 | The loops over the chart's keys, in any order, leave the array equal to `LowFill` of its old contents |
| GridBuild.ColumnStep | emb120_zntol_streamlit.py:61-64 | Finishing one MSA key adds exactly its first on-grid column to the written set |
| GridBuild.LowRowStep | emb120_zntol_streamlit.py:57-64 | Finishing one ISA key adds exactly the cells its chart row writes in its grid row |
| GridBuild.WindowMeanAt | emb120_zntol_streamlit.py:68-70 | The accumulating loop over the footprint returns `NanMean` of the cell's window |
| GridBuild.Smooth | emb120_zntol_streamlit.py:70 | A new array of the same shape whose contents are `Smoothed` of the input |
| GridBuild.BuildWeightGrid | emb120_zntol_streamlit.py:21-70 | The built array's contents are `BuiltGrid` of the axes and charts |
| GridBuild.BuildChartGrid | emb120_zntol_streamlit.py:14-70 | The calculator's own build yields `BuiltGrid` of its own axes and charts |
| GridExamples.AxesDistinct | emb120_zntol_streamlit.py:14-19 | Neither axis repeats a value |
| GridExamples.ChartAltitudesDistinct | emb120_zntol_streamlit.py:44-45 | The chart altitude list has no repeats |
| GridExamples.PositionsOnAxes | emb120_zntol_streamlit.py:14-19 | The axis and chart positions of the cells used below |
| GridExamples.HighRowIsaZero | emb120_zntol_streamlit.py:31 | The ISA 0 row of the high chart |
| GridExamples.LowRowIsaZero | emb120_zntol_streamlit.py:50 | The ISA 0 entries of the low chart at 20000–23000 ft |
| GridExamples.HighRowsTopCorner | emb120_zntol_streamlit.py:27-28 | The ISA −20 and −15 rows of the high chart; neither ISA is in the low chart |
| GridExamples.HighAtIsaZeroLow | emb120_zntol_streamlit.py:40-46 | After the high fill, ISA 0 holds 22200 at 20000 ft and 20800 at 21000 ft |
| GridExamples.HighAtIsaZeroHigh | emb120_zntol_streamlit.py:40-46 | After the high fill, ISA 0 holds 19400 at 22000 ft and 18000 at 23000 ft |
| GridExamples.LowWritesAtIsaZero | emb120_zntol_streamlit.py:49-64 | The low chart writes ISA 0 at 20000, 22000 and 23000 ft, not at 21000 ft |
| GridExamples.LowOverridesHighAtIsaZero | emb120_zntol_streamlit.py:40-64 | Before the mean, ISA 0 reads 21550, 20800, 20100 and 19350 at 20000–23000 ft: the low chart overrides; 21000 ft keeps the high value |
| GridExamples.BottomCornerCells | emb120_zntol_streamlit.py:23-64 | Before the mean, ISA −20 and −15 at 8000 and 10000 ft are missing: neither chart lists them |
| GridExamples.MissingCornerStaysMissing | emb120_zntol_streamlit.py:70 | In any grid, a corner whose in-grid neighbours are all missing stays missing after the mean |
| GridExamples.CornerStaysMissing | emb120_zntol_streamlit.py:14-70 | ISA −20 at 8000 ft is still missing in the built grid |
| GridExamples.TopCornerCells | emb120_zntol_streamlit.py:26-64 | Before the mean, ISA −20/−15 at 25000/26000 ft hold the high chart's 19400, 18000, 18400, 17100 |
| GridExamples.MeanAtTopEdge | emb120_zntol_streamlit.py:68-70 | With those four cells present, the mean at the top edge is 18225 |
| GridExamples.KnownCellIsReplaced | emb120_zntol_streamlit.py:23-70 | The charted 18000 at ISA −20, 26000 ft becomes 18225 after the mean: known cells are smoothed too |

## Left out

- The Streamlit user interface (lines 133-150) is not modelled. It contains two defects:
  - It reads `res['w_obstacle']`, but the result key is `w_obstacle_max`.
  - It reads `res['zntol']` on error results, which have no such key.
- `@st.cache_data` memoisation is not modelled: it is a pure cache with no effect on results.
- `RectBivariateSpline` (line 73) is a foreign call whose result nothing reads. It is not modelled.
- `round()` on the outputs (lines 124-128) is not modelled. The model gives the values before rounding.
- The `source` strings are not modelled as text. The `Source` datatype records the path, the chosen ISA, and the fallback and pull-down flags.
- The placeholder defaults `w_obstacle_max = STRUCTURAL_MTOW` and `source = "unknown"` (lines 88-89) are not modelled. Every path overwrites them.
- IEEE floating point and NaN are not modelled:
  - The model uses exact reals.
  - In Python, a NaN input passes every range check, because the comparisons involving it are false.
  - NaN grid cells are `None`.
- `interp1d` is never imported by the program. It is modelled as scipy's linear evaluation: a left search clipped to the first and last segments.
- Python dictionary insertion order is not modelled:
  - The low-fill loop takes the keys in any order.
  - `FillLow` is proved to give the same grid for every order, because each entry has its own cell.
- WeightGrid.HighFill: requires `HighRowsLongEnough`: every chart row whose ISA is on the grid has at least as many entries as the chart altitude list.
  - Python needs less: it reads only the indices of altitudes that are also on the grid.
  - With a shorter row, Python would raise `IndexError`. The model does not cover that failure.
  - The calculator's own chart satisfies the condition (`HighDataFitsAxes`).
- GridBuild.FillHigh: same precondition as `WeightGrid.HighFill`, for the same reason.
- Zntol.CalculateZntol: an empty table on the interpolation path returns `Failed(NoIsaRows)`, where Python raises `ValueError` from `min()`.
