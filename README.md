# Planar coil selection: the integer core

This project models the exact-arithmetic part of a planar spiral coil design
pipeline and its viewer. The pipeline does five things:

1. It enumerates every combination of trace width, trace spacing, turns per
   layer and tank capacitor, numbering the candidates from 1.
2. It derives each candidate's inner diameter, average diameter and fill
   ratio. All of these are integer micrometres or integer parts per million.
3. It computes the length of the spiral trace, turn by turn.
4. It drops candidates whose inner diameter is negative. Then it drops those
   whose fill ratio is below the minimum.
5. It ranks the survivors by a descending multi-key sort and keeps the first
   rows.

The viewer keeps an ordered list of sort keys without duplicates, and a row
count. It applies both to a table.

Modules:

- `Arith`: small nonlinear arithmetic facts.
- `Geometry`: the three geometry formulas.
- `TraceLength`: the trace-length loop.
- `Grid`: the candidate generator.
- `Filters`: the two row filters and the geometry stages composed.
- `Ranking`: the sort, `head(n)` and the top-five shortlist.
- `CoilSelector`: the viewer state, as a class.

Modelling choices:

- **Units.** The source converts micrometres to metres and back with
  floating point. The model uses the exact integer values instead.
- **Integer conversion.** `astype(int)` / `int()` truncate toward zero. This
  is modelled by `Geometry.TruncDiv`, not by Dafny's Euclidean division.
- **Row types.** Generated rows are typed records (`Grid.Coil`, then
  `Filters.SizedCoil` and `Filters.ShapedCoil` as columns are added).
- **Ranking tables.** The ranking works on generic tables: a header plus rows
  that map column names to integers. This is because the source sorts by
  column name, and a name missing from the header is an error (`KeyError`).
- **Tie order.** Ties are placed by a stable insertion sort. The source does
  not fix the order of equal rows: it uses the data frame's default sort.
  So no contract states stability; the contracts state only the
  non-increasing order and the permutation.
- **Pipeline order.** The entry point of `Coil_Parameter_Selection.py` has
  the geometry stages commented out. `Filters.GeometryStages` composes them
  in the order the functions are written to run: inner diameter, filter,
  average diameter, fill ratio, filter.
- **Fill-ratio threshold.** See "Findings".

## Model

| member | source | states |
|---|---|---|
| Geometry.TruncDiv | Coil_Parameter_Selection.py:149 | integer conversion truncates toward zero: for a non-negative value q*b <= a < q*b+b, for a negative value q*b-b < a <= q*b |
| Geometry.InnerDiameter | Coil_Parameter_Selection.py:61-69 | the inner diameter is od - 2*tpl*(tw+ts), never clamped; it is at most od when tpl >= 0 and tw+ts >= 0, and strictly below od when tpl >= 1 and tw+ts > 0 |
| Geometry.InnerDiameterPerTurn | Coil_Parameter_Selection.py:65 | each extra turn takes exactly 2*(tw+ts) off the inner diameter |
| Geometry.AvgDiameter | Coil_Parameter_Selection.py:71-77 | the average diameter is the mean of id and od truncated toward zero (within 1/2 of the exact mean); it lies between id and od whenever 0 <= id <= od |
| Geometry.FillRatio | Coil_Parameter_Selection.py:79-85 | the fill ratio is id/od in parts per million, truncated; it lies in [0, 10^6] for 0 <= id <= od and is exactly 10^6 when id = od; it is not positive when id < 0 |
| Geometry.FillRatioAtLeast | Coil_Parameter_Selection.py:149 | for id >= 0 and od > 0, the truncated ratio reaches an integer threshold t exactly when id*10^6 >= t*od, so truncation never changes a filter decision |
| Geometry.WorkedGeometry | Coil_Parameter_Selection.py:61-85 | od 20000, tw 200, ts 150, 10 turns give id 13000, average 16500 and ratio 650000; 1000/300/100 turns give a negative inner diameter |
| TraceLength.SpiralLengthClosedForm | Coil_Parameter_Selection.py:219-225 | summing the turn perimeters gives 4*n*od - 4*n*(n-1)*(tw+ts) |
| TraceLength.SpiralLengthBounds | Coil_Parameter_Selection.py:219-225 | when tw+ts >= 0 and the inner diameter after the last turn is not negative, the trace length lies between 0 and 4*n*od |
| TraceLength.CalculateTraceLength | Coil_Parameter_Selection.py:219-225 | the loop returns the spiral length of max(n,0) turns, equal to the closed form; its final side length is the inner-diameter formula; zero or negative turns give 0 |
| Grid.RangeLen | Coil_Parameter_Selection.py:97-99 | a range with a positive step yields the least n whose n-th value is at or past its end |
| Grid.RangeAtBounds | Coil_Parameter_Selection.py:97-99 | every value a range yields lies in [lo, hi) |
| Grid.GridRow | Coil_Parameter_Selection.py:95-107 | the row generated at 0-based position k has coil number k+1, the maximum outer diameter, and a capacitor from the tank list |
| Grid.GridRowAt | Coil_Parameter_Selection.py:97-106 | the combination (width i, spacing j, turns t, capacitor c) is generated at mixed-radix position ((i*S+j)*T+t)*C+c, with width outermost and capacitor innermost, and carries exactly those values |
| Grid.GridRowInRanges | Coil_Parameter_Selection.py:97-99 | every generated width, spacing and turn count lies within its range |
| Grid.DefaultGridSize | Coil_Parameter_Selection.py:41 | the default sweep has 86 widths, 16 spacings, 120 turn counts and 19 capacitors, 86*16*120*19 rows in all |
| Grid.DefaultGridFirst | Coil_Parameter_Selection.py:95-107 | with the default sweep and the 20 mm outer diameter of line 292, the first row is coil 1 with width 150, spacing 150, 1 turn and 10 pF |
| Grid.DefaultGridLast | Coil_Parameter_Selection.py:95-107 | with the default sweep there are 3137280 rows, and the last is coil 3137280 with width 1000, spacing 300, 120 turns and 10000 pF |
| Grid.CreateCoils | Coil_Parameter_Selection.py:88-107 | the four nested loops and the counter produce exactly the grid: as many rows as the product of the range sizes, row k being GridRow(k), so coil numbers run 1..N in generation order |
| Filters.AddInnerDiameter | Coil_Parameter_Selection.py:122-125 | the inner-diameter column is added to every row, with rows kept in order and otherwise unchanged |
| Filters.FilterInnerDiameter | Coil_Parameter_Selection.py:128 | the survivors are exactly the input rows whose inner diameter is at least 0, each kept as often as it occurs in the input; every other row is dropped |
| Filters.FilterInnerDiameterIdempotent | Coil_Parameter_Selection.py:128 | filtering twice equals filtering once |
| Filters.FilterInnerDiameterKeepsOrder | Coil_Parameter_Selection.py:128 | the survivors are a subsequence of the input (order kept, rows unchanged), and filtering distributes over concatenation |
| Filters.Shape | Coil_Parameter_Selection.py:135-149 | adding the average diameter and fill ratio keeps the row; for 0 <= id <= od the average lies in [id, od] and the ratio in [0, 10^6] |
| Filters.AddShape | Coil_Parameter_Selection.py:135-149 | both columns are added to every row, in order |
| Filters.FilterFillRatioAsWritten | Coil_Parameter_Selection.py:151 | the filter as written keeps exactly the rows whose scaled column is at least the unscaled 0.3, with their multiplicities |
| Filters.FilterFillRatioAsWrittenIdempotent | Coil_Parameter_Selection.py:151 | the filter as written, applied twice, equals applying it once |
| Filters.FilterFillRatioAsWrittenKeepsOrder | Coil_Parameter_Selection.py:151 | the survivors of the filter as written are a subsequence of the input, and it distributes over concatenation |
| Filters.AsWrittenThresholdIsOnePpm | Coil_Parameter_Selection.py:58 | against the integer column, the written threshold 0.3 is the same as "at least 1 ppm" |
| Filters.AsWrittenKeepsThinCoil | Coil_Parameter_Selection.py:151 | a coil with fill ratio 0.09 passes the written filter but not the intended one |
| Filters.FilterFillRatio | Coil_Parameter_Selection.py:151 | the corrected filter keeps exactly the rows whose fill ratio is at least 300000 ppm (0.3), with their multiplicities |
| Filters.FilterFillRatioIdempotent | Coil_Parameter_Selection.py:151 | filtering twice equals filtering once |
| Filters.FilterFillRatioKeepsOrder | Coil_Parameter_Selection.py:151 | the survivors are a subsequence of the input, and filtering distributes over concatenation |
| Filters.PassesFillRatioMeaning | Coil_Parameter_Selection.py:58 | a derived row passes the corrected filter exactly when id >= 0.3*od |
| Filters.GeometryStages | Coil_Parameter_Selection.py:119-151 | the stages with the corrected fill-ratio filter (so a row of 1 ppm to 0.3 that line 151 keeps is dropped here, see Findings): every surviving row comes from an input coil with its derived columns, has id >= 0 and a ratio of at least 0.3, and lies within the geometric bounds; every coil that meets both thresholds survives; only rows that pass the inner-diameter filter need a positive outer diameter |
| Filters.ZeroOuterDiameterIsDropped | Coil_Parameter_Selection.py:128 | the single coil with od 0, 150 um trace, 150 um spacing and one turn has id -600, so it is dropped by the inner-diameter filter before the division at line 148, leaving an empty table (a zero od is dropped this way only when tpl*(tw+ts) > 0) |
| Filters.GeometryStagesConcat | Coil_Parameter_Selection.py:119-151 | rows are processed independently: the stages on a+b give the stages on a followed by the stages on b |
| Ranking.RanksAtLeastTotal | Coil_Parameter_Selection.py:285 | the descending lexicographic comparison is total |
| Ranking.RanksAtLeastTransitive | Coil_Parameter_Selection.py:285 | the comparison is transitive |
| Ranking.RanksAtLeastTwoKeys | Coil_Parameter_Selection.py:285 | on two keys, ranking at least as high means more of the first key, or as much of it and at least as much of the second |
| Ranking.SortDesc | Coil_Parameter_Selection.py:285 | the sort returns a permutation of the rows that is non-increasing in the key order |
| Ranking.Head | Coil_Parameter_Selection.py:289 | head(n) is the prefix of length min(n, size) for n >= 0; for n < 0 it drops the last -n rows |
| Ranking.SortValues | Coil_Parameter_Selection.py:285 | sorting fails with a KeyError exactly when a key is not a column, naming such a key; otherwise it returns a sorted permutation |
| Ranking.SortThenHead | Coil_Selection_GUI.py:106-110 | sort then head: the error cases of the sort, the length of head(n), a sub-multiset of the input, and the order non-increasing |
| Ranking.ShortlistRanksAboveRest | Coil_Parameter_Selection.py:285-289 | each kept row ranks at least as high as every row that was left out |
| Ranking.TwoKeyShortlist | Coil_Parameter_Selection.py:285-289 | sorting by inductance then Q factor and taking head(n) gives rows in that order, each ranking at least as high on those two columns as every row left out |
| Ranking.TopFiveOptions | Coil_Parameter_Selection.py:280-289 | the shortlist fails exactly when inductance or Q factor is missing; otherwise it is a sub-multiset of the input of size min(5, rows), ordered by inductance descending with ties broken by the higher Q factor, and every row left out ranks no higher than every row kept |
| CoilSelector.AddKey | Coil_Selection_GUI.py:93-94 | a key already present leaves the list unchanged; a new key is appended at the end; earlier keys keep their positions and no duplicate is introduced |
| CoilSelector.AddKeyIdempotent | Coil_Selection_GUI.py:93 | adding the same key twice is adding it once |
| CoilSelector.AddKeysInvariant | Coil_Selection_GUI.py:91-95 | starting from a list without duplicates, after any run of additions the list holds exactly the initial and the added keys, keeps its first keys in place, and has no duplicates |
| CoilSelector.CoilSelectorApp.constructor | Coil_Selection_GUI.py:18-19 | the key list starts as the single inductance column and the row count as 10 |
| CoilSelector.CoilSelectorApp.AddSortOption | Coil_Selection_GUI.py:91-95 | the new key list is AddKey of the old one, the row count is unchanged, and the list keeps inductance first with no duplicates |
| CoilSelector.CoilSelectorApp.SetNumRowsDisplayed | Coil_Selection_GUI.py:39 | the row-count entry sets the count and leaves the keys unchanged |
| CoilSelector.CoilSelectorApp.ApplyFilters | Coil_Selection_GUI.py:105-110 | the shown rows are the table sorted by the current keys and cut by head(count): a KeyError exactly when a key is missing, otherwise min(count, rows) input rows, non-increasing lexicographically in key order |

## Left out

- Inductance, sensor frequency, AC and DC resistance and Q factor (Coil_Parameter_Selection.py:155-273): floating point with log and sqrt. The model does not capture that the AC-resistance call at line 214 passes its arguments swapped, nor that `calculate_q_factor` returns nothing. The Q-factor column exists in the model only as an integer column of the ranked table.
- Geometry.TruncDiv: applies to the exact integer quotient. Floating-point rounding in the unit round-trips can land a float just off an exact integer, so `astype(int)` gives one toward zero (one below for a positive value, one above for a negative inner diameter at line 125); that off-by-one is not modelled.
- Reading and writing the delimited files, and the entry point: I/O. Each stage is a function from rows to rows.
- The fallback in `coil_fill_ratio_csv` that calls `create_coils` and `inner_diameter_csv` when columns are missing, through variables defined only in the entry point (lines 144-147): the model assumes the columns are present.
- Console printing in `top_five_options`, and its reading of the file: `Ranking.TopFiveOptions` returns the rows that would be printed.
- The tkinter widgets, file dialog, message box, header lookup and table display of the viewer: UI. The selected column and the row count arrive as method parameters.
- Grid.CreateCoils: works for any positive steps; a zero or negative step (never used by the source) is excluded by `ValidSweep`.
- CoilSelector.CoilSelectorApp.SetNumRowsDisplayed: a non-numeric entry, which makes the row-count variable raise an error on read, is not modelled; a decimal entry reads as its truncation toward zero, which the `int` parameter already covers.
- Ranking.SortDesc: ties are kept in input order by this model's sort. The source does not promise any tie order, so no contract states one.
- Ranking.SortValues: when several keys are missing, the model names the first of them; which one the data frame library names is not modelled.
- Ranking: table cells are integers, as every column the pipeline writes is converted to integers before it is saved.
- Filters.GeometryStages: uses the corrected fill-ratio filter, not the one line 151 writes; the written one is `Filters.FilterFillRatioAsWritten`.
- Filters.GeometryStages: assumes a positive outer diameter for the rows that pass the inner-diameter filter. The source divides by the outer diameter at line 148, and for such a row with a zero outer diameter the integer conversion at line 149 fails on the result. Rows the filter at line 128 drops may have any outer diameter.

## Findings

| source | as written | input that shows it | evidently intended | confidence | as-written member | corrected member |
|---|---|---|---|---|---|---|
| Coil_Parameter_Selection.py:151 | the fill-ratio column is id/od scaled by 10^6 (lines 83-84, 149) but is compared with the unscaled `min_coil_fill_ratio = 0.3` (line 58), so on integers the filter keeps every row with a ratio of at least 1 ppm | od 20000, tw 1000, ts 300, 7 turns: id 1800, ratio 90000 ppm (0.09) is kept | keep rows whose ratio is at least 0.3, i.e. a column value of at least 300000 | not executed | Filters.FilterFillRatioAsWritten, Filters.AsWrittenKeepsThinCoil | Filters.FilterFillRatio, Filters.PassesFillRatioMeaning |
