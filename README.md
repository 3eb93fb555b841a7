# Weighted distributional statistics, modelled in Dafny

The two notebook exports `capitulo2.py` and `capitulo3.py` accompany a textbook on poverty and inequality measurement. Their computational core is a small toolkit of weighted statistics over survey microdata. Each observation is a value (per-capita family income, `ipcf`) with an expansion weight (`pondera`).

This project models that toolkit and proves what each part computes. Values and weights are exact `real` numbers, so facts such as "the last cumulative share is exactly 1" hold as stated. An observation is `Stats.Obs(x, w)`. The modules follow the program's parts:

| module | file | models |
|---|---|---|
| `Stats` | stats.dfy | observations, the error kinds, weighted sums over prefixes and per label (`groupby(...).sum()`) |
| `Sorting` | sorting.dfy | `sort_values` as a sort by (value, weight), and the `x > 0` filter |
| `Describe` | describe.dfy | `descriptive_stats`: weighted mean and variance, min and max, midpoint-rule quartiles through `np.interp`, coefficient of variation |
| `BoxPlot` | boxplot.dfy | `box_plotInput` and its nested `weighted_percentile` (cumulative-weight rule, with `np.percentile` when weights are absent) |
| `Curves` | curves.dfy | `shrpop`, the Lorenz curve, the per-region normalisation loops, the Pareto survival share and the generalized Lorenz curve |
| `Poverty` | poverty.dfy | the 0/1 poverty indicator and its weighted average |
| `Growth` | growth.dfy | percentile bucketing over `((j-1)/100, j/100]`, per-percentile means, the inner join and the growth-incidence change |
| `Tiles` | tiles.dfy | the N-tile rule, the masked column writes, and the quintile blocks with their three first-mask variants |
| `Quantiles` | quantiles.dfy | `ratq51` (the Q5/Q1 mean ratio) and `gcuan` (N-tile assignment with per-bucket mean, variance and weight) |
| `Households` | households.dfy | household heads (`cumcount() == 0`), size classes truncated at 6 and their percentage shares, intra-household tax and subsidy |
| `Sources` | sources.dfy | income-source totals and shares |

The modelling choices follow the source's form:

- **Pure code is functions.** Vectorised pandas and numpy expressions are Dafny functions with named results. `np.interp`, `cumsum`, `groupby().sum()` and `np.average` each become a function over sequences.
- **Loops over columns are methods.** Loops that overwrite column slices are `method`s over `array`s, each proved equal to a function that defines its result:
  - `gcuan`'s bucket loop and the quintile masks (`Tiles.AssignTiles`, `Tiles.AssignQuintiles`);
  - the growth-incidence percentile loop (`Growth.PercentileColumn`);
  - the per-region division loops (`Curves.NormalizeByGroupMax`), including the case where a column is divided by its own group maximum in place;
  - the household-size masks (`Households.HouseholdSizes`);
  - the subsidy column (`Households.HeadSubsidies`);
  - the percentile dictionary of `box_plotInput` (`BoxPlot.CollectPercentiles`).
- **Failures are error values.** Where pandas raises a `ValueError`, or produces NaN or inf from a division by zero, the model returns `Err(e)` or `None`. `Stats.Error` names the cause.

## Model

| member | source | states |
|---|---|---|
| Describe.DescriptiveStats | _build/jupyter_execute/sections/capitulo2.py:194-234 | A missing `x` gives `Err(MissingValues)`. A missing weight series gives `Err(MissingWeights)`. Different lengths give `Err(ShapeMismatch)`. A zero weight sum is the only further error. An `Ok` summary has count = number of rows, weighted count = Σw, mean = Σw·x/Σw, the population variance, min and max of `x`, and cv² exactly when the mean is non-zero. Its q25, q50 and q75 are the midpoint-rule quantiles at 0.25, 0.5 and 0.75 of the sorted rows, with `min <= q25 <= q50 <= q75 <= max`. With non-negative weights, `min <= mean <= max` and the variance is at least 0. |
| Describe.WeightedMean | _build/jupyter_execute/sections/capitulo2.py:206 | `np.average(x, weights)`: the result times Σw is Σw·x. |
| Describe.WeightedVariance | _build/jupyter_execute/sections/capitulo2.py:211 | The result times Σw is Σw·(x − mean)², the weighted population variance. |
| Describe.MidpointFractions | _build/jupyter_execute/sections/capitulo2.py:223-224 | One fraction per sorted row. Their meaning is proved by `MidpointsInUnit`, `MidpointsNonDecreasing`, `MidpointsStrictlyIncreasing` and `MidpointsOfUnitWeights`. |
| Describe.SummarizeCorrect | _build/jupyter_execute/sections/capitulo2.py:206-227 | The summary of non-empty rows with a non-zero weight sum meets every field of the characterisation above, including quartiles equal to `np.interp` at 0.25, 0.5 and 0.75 over the midpoint fractions of the sorted rows. With non-negative weights, the mean lies between min and max and the variance is non-negative. |
| Describe.MeanBounds | _build/jupyter_execute/sections/capitulo2.py:206 | The weighted mean times Σw is Σw·x. With non-negative weights it lies between any lower and upper bound of the values. |
| Describe.VarianceNonNeg | _build/jupyter_execute/sections/capitulo2.py:211 | The weighted population variance is non-negative when the weights are. |
| Describe.SquaredDeviationNonNeg | _build/jupyter_execute/sections/capitulo2.py:211 | Σw·(x − m)² is non-negative for any centre m when the weights are non-negative. |
| Describe.CvSquared | _build/jupyter_execute/sections/capitulo2.py:213-215 | The result c satisfies c·mean² = variance, i.e. c is (sd/mean)². It requires a non-zero mean. |
| Describe.MidpointsStrictlyIncreasing | _build/jupyter_execute/sections/capitulo2.py:223-224 | With positive weights, the midpoint fractions (cumsum w − w/2)/Σw are strictly increasing. |
| Describe.MidpointsNonDecreasing | _build/jupyter_execute/sections/capitulo2.py:223-224 | With non-negative weights, the midpoint fractions never decrease. |
| Describe.MidpointsInUnit | _build/jupyter_execute/sections/capitulo2.py:223-224 | Every midpoint fraction lies in [0, 1]. |
| Describe.MidpointsOfUnitWeights | _build/jupyter_execute/sections/capitulo2.py:223-224 | With unit weights, the i-th fraction is (i + ½)/n. |
| Describe.InterpMonotone | _build/jupyter_execute/sections/capitulo2.py:225-227 | `np.interp` over non-decreasing values is non-decreasing in the query point. |
| Describe.InterpWithin | _build/jupyter_execute/sections/capitulo2.py:225-227 | `np.interp` over non-decreasing values returns a value between the first and the last value. |
| Describe.InterpClamps | _build/jupyter_execute/sections/capitulo2.py:225-227 | A query at or beyond the last grid point returns the last value. A query before the first grid point returns the first value. |
| Describe.InterpAtGridPoint | _build/jupyter_execute/sections/capitulo2.py:225-227 | On a strictly increasing grid, interpolating at grid point k returns value k. |
| Describe.QuartilesOrdered | _build/jupyter_execute/sections/capitulo2.py:220-227 | min ≤ q25 ≤ q50 ≤ q75 ≤ max for the midpoint-rule quartiles of the sorted rows. |
| Describe.SortedEnds | _build/jupyter_execute/sections/capitulo2.py:208-209 | The first and last sorted values are `x.min()` and `x.max()`. |
| Describe.MinOf | _build/jupyter_execute/sections/capitulo2.py:208 | The result is one of the values and is at most every value. |
| Describe.MaxOf | _build/jupyter_execute/sections/capitulo2.py:209 | The result is one of the values and is at least every value. |
| Sorting.SortObs | _build/jupyter_execute/sections/capitulo2.py:769 | The result is sorted by (value, weight) and is a permutation of the input. |
| Sorting.SumOfSort | _build/jupyter_execute/sections/capitulo2.py:769-777 | Sorting leaves every weighted sum unchanged. |
| Sorting.KeepPositive | _build/jupyter_execute/sections/capitulo3.py:154 | Every kept row has a positive value. Each row with a positive value is kept as many times as it occurs in the input, and no other row is kept. |
| Sorting.KeepPositiveKeepsOrder | _build/jupyter_execute/sections/capitulo3.py:153-154 | Filtering a sorted sequence leaves it sorted. |
| BoxPlot.WeightedPercentile | _build/jupyter_execute/sections/capitulo2.py:643-651 | Fails exactly when the weights are shorter than the data, the data are empty, or the weights sum to 0. |
| BoxPlot.PercentGrid | _build/jupyter_execute/sections/capitulo2.py:649 | One grid point per row. Its values are stated by `PercentGridAt`, `PercentGridIsScaledDistribution` and `PercentGridStartsAboveZero`. |
| BoxPlot.PercentGridAt | _build/jupyter_execute/sections/capitulo2.py:649 | The percent grid is the cumulative population share times 100. |
| BoxPlot.PercentGridIsScaledDistribution | _build/jupyter_execute/sections/capitulo2.py:649 | With non-negative weights, the grid never decreases and ends at exactly 100. |
| BoxPlot.PercentGridStartsAboveZero | _build/jupyter_execute/sections/capitulo2.py:649 | With positive weights, the grid starts above 0 (there is no midpoint shift). |
| BoxPlot.WeightedPercentileWithin | _build/jupyter_execute/sections/capitulo2.py:646-650 | A weighted percentile lies between the data minimum and maximum. |
| BoxPlot.WeightedPercentileMonotone | _build/jupyter_execute/sections/capitulo2.py:646-650 | A larger percent never gives a smaller weighted percentile. |
| BoxPlot.WeightedPercentileEnds | _build/jupyter_execute/sections/capitulo2.py:650 | With non-negative weights, percent ≥ 100 gives the maximum. With positive weights, percent ≤ 0 gives the minimum. |
| BoxPlot.NumpyPercentile | _build/jupyter_execute/sections/capitulo2.py:644-645 | Unweighted `np.percentile` fails exactly for a percent outside [0, 100] or empty data. |
| BoxPlot.NumpyPercentileWithin | _build/jupyter_execute/sections/capitulo2.py:645 | The linear-rule percentile lies between the data minimum and maximum. |
| BoxPlot.NumpyPercentileMonotone | _build/jupyter_execute/sections/capitulo2.py:645 | A larger percent never gives a smaller percentile. |
| BoxPlot.NumpyPercentileEnds | _build/jupyter_execute/sections/capitulo2.py:645 | Percent 0 gives the minimum and percent 100 the maximum. |
| BoxPlot.RankValueAtWholeRank | _build/jupyter_execute/sections/capitulo2.py:645 | At a whole rank, the linear rule returns that order statistic. |
| BoxPlot.PercentileOrdered | _build/jupyter_execute/sections/capitulo2.py:643-651 | For both rules: min ≤ percentile(p) ≤ percentile(q) ≤ max when p ≤ q. |
| BoxPlot.PercentileMap | _build/jupyter_execute/sections/capitulo2.py:652-654 | The dictionary's keys are exactly the requested percents, and each entry is the result for its key. |
| BoxPlot.CollectPercentiles | _build/jupyter_execute/sections/capitulo2.py:652-654 | The loop returns the first failing percentile's error. If none fails, it returns the dictionary `PercentileMap` describes. |
| BoxPlot.BoxPlotInputOf | _build/jupyter_execute/sections/capitulo2.py:641-665 | The method's result is the box-plot input `BoxPlotOf` defines. |
| BoxPlot.Whiskers | _build/jupyter_execute/sections/capitulo2.py:656-664 | The method computes iqr, mini and maxi as `Box` defines them. |
| BoxPlot.BoxPlotEntries | _build/jupyter_execute/sections/capitulo2.py:652-654 | Every dictionary key is a requested percent, and its entry is that percent's percentile. |
| BoxPlot.BoxPlotWhiskers | _build/jupyter_execute/sections/capitulo2.py:656-664 | The call succeeds iff every percentile succeeds and both 25 and 75 were requested. On success: iqr = p75 − p25 ≥ 0; mini ≥ 0; mini ≥ p25 − 1.5·iqr; mini ≤ p25 when p25 ≥ 0; maxi = p75 + 1.5·iqr ≥ p75. |
| Curves.CumShareAt | _build/jupyter_execute/sections/capitulo2.py:515 | Share i is the weight of rows 0..i over the total weight. |
| Curves.CumShareOf | _build/jupyter_execute/sections/capitulo2.py:515 | One share per row. What each share is, and that the shares form a distribution, are stated by `CumShareAt`, `CumShareEndsAtOne` and `CumShareIsDistribution`. |
| Curves.CumShareEndsAtOne | _build/jupyter_execute/sections/capitulo2.py:515 | The last cumulative share is exactly 1. |
| Curves.CumShareIsDistribution | _build/jupyter_execute/sections/capitulo2.py:515 | With non-negative terms, the cumulative shares never decrease and lie in [0, 1]. |
| Curves.ShrpopIsDistribution | _build/jupyter_execute/sections/capitulo2.py:513-515 | `shrpop` over the rows sorted by value never decreases, lies in [0, 1] and ends at 1. The sorted values ascend. |
| Curves.Shrpop | _build/jupyter_execute/sections/capitulo2.py:513-515 | One share per row, in the order of the rows sorted by value; its properties are stated by `ShrpopIsDistribution`. |
| Curves.LorenzAt | _build/jupyter_execute/sections/capitulo2.py:769-777 | The curve has one point per row. Point i is (population share, income share) of rows 0..i once the rows are sorted by (value, weight). |
| Curves.LorenzPoints | _build/jupyter_execute/sections/capitulo2.py:769-777 | The whole curve at once: every point is the pair of cumulative shares of the sorted rows. |
| Curves.LorenzIsCurve | _build/jupyter_execute/sections/capitulo2.py:769-777 | With non-negative values and weights, the curve has one point per row (at least one), both coordinates never decrease, lie in [0, 1] and end at (1, 1). |
| Curves.LorenzBelowDiagonal | _build/jupyter_execute/sections/capitulo2.py:769-777 | `shrinc ≤ shrpop` at every point. |
| Curves.LorenzOfEqualIncomes | _build/jupyter_execute/sections/capitulo2.py:769-777 | When all values are equal, `shrinc = shrpop` everywhere. |
| Curves.GroupCumSum | _build/jupyter_execute/sections/capitulo2.py:802 | One running total per row. Its values are stated by `GroupCumWithinTotal`, `GroupCumAtLast`, `GroupCumNonDecreasing` and `GroupCumMaxIsTotal`. |
| Curves.GroupCumWithinTotal | _build/jupyter_execute/sections/capitulo2.py:802 | The per-region running sum lies between 0 and the region's total. |
| Curves.GroupCumAtLast | _build/jupyter_execute/sections/capitulo2.py:802 | At the region's last row, the running sum is the region's total. |
| Curves.GroupCumNonDecreasing | _build/jupyter_execute/sections/capitulo2.py:802 | Within a region, the running sum never decreases. |
| Curves.GroupCumMaxIsTotal | _build/jupyter_execute/sections/capitulo2.py:805 | The region's largest running sum (`aux2`) is the region's total. |
| Curves.GroupSharesAreRegionalShares | _build/jupyter_execute/sections/capitulo2.py:802-814 | The normalised column is running sum / region total. It lies in [0, 1], never decreases within a region and is 1 at the region's last row. |
| Curves.GroupShares | _build/jupyter_execute/sections/capitulo2.py:802-806 | One share per row; `GroupSharesAreRegionalShares` states what each one is. |
| Curves.ParetoSurvivalFalls | _build/jupyter_execute/sections/capitulo2.py:582-590 | 1 − shrpop_region lies in [0, 1], never increases within a region and reaches 0 at the region's last row. |
| Curves.ParetoSurvival | _build/jupyter_execute/sections/capitulo2.py:582-590 | One value per row; `ParetoSurvivalFalls` states its range, its order within a region and its end value. |
| Curves.Distinct | _build/jupyter_execute/sections/capitulo2.py:804 | `np.unique`: the same elements as the region column, each once. |
| Curves.NormalizeByGroupMax | _build/jupyter_execute/sections/capitulo2.py:804-806 | After the loop over regions, every entry is its old value divided by its region's old maximum. This holds even when the column is divided by itself in place. |
| Curves.NormalizeGroup | _build/jupyter_execute/sections/capitulo2.py:805-806 | One loop step: dividing region g by its maximum extends the normalised prefix of regions by g. |
| Curves.DivideGroup | _build/jupyter_execute/sections/capitulo2.py:806 | The masked division changes exactly the rows of region g. |
| Curves.RegionalLorenz | _build/jupyter_execute/sections/capitulo2.py:802-814 | The two columns the loops produce are the regional population and income shares. |
| Curves.GeneralizedLorenzEndsAtMean | _build/jupyter_execute/sections/capitulo2.py:848-861 | At a region's last row, glorenz is the region's weighted mean income. |
| Curves.GeneralizedLorenzCurve | _build/jupyter_execute/sections/capitulo2.py:857-861 | One value per row; `GeneralizedLorenzEndsAtMean` and `GeneralizedLorenz` state what it is. |
| Curves.GeneralizedLorenz | _build/jupyter_execute/sections/capitulo2.py:848-861 | The method returns `shrpop`, `pop` and `glorenz`: the regional share, the regional running weight, and the running income over the regional total weight. |
| Poverty.Indicator | _build/jupyter_execute/sections/capitulo2.py:253-254 | Row i becomes 1 when its value is below the line and 0 otherwise, and keeps its weight. |
| Poverty.IndicatorSums | _build/jupyter_execute/sections/capitulo2.py:256-259 | The indicator rows keep the weight total. Their weighted sum is the weight of the rows below the line. |
| Poverty.PovertyRate | _build/jupyter_execute/sections/capitulo2.py:259 | The rate fails exactly when the weights sum to 0. |
| Poverty.PovertyRateMeaning | _build/jupyter_execute/sections/capitulo2.py:259-263 | Rate × population is the weight below the line. With non-negative weights the rate lies in [0, 1]. |
| Poverty.PovertyRateExtremes | _build/jupyter_execute/sections/capitulo2.py:256-259 | The rate is 0 when nobody is below the line and 1 when everybody is. |
| Poverty.PovertyRateMonotone | _build/jupyter_execute/sections/capitulo2.py:255-259 | A higher line never gives a lower rate (non-negative weights). |
| Growth.CumWeights | _build/jupyter_execute/sections/capitulo2.py:935 | Entry i is the weight of rows 0..i. |
| Growth.LargestRunningTotal | _build/jupyter_execute/sections/capitulo2.py:935 | With non-negative weights, the largest running total is the total weight. |
| Growth.ShareColumnIsShrpop | _build/jupyter_execute/sections/capitulo2.py:935 | cumsum / cumsum.max is the cumulative population share. |
| Growth.ShareAt | _build/jupyter_execute/sections/capitulo2.py:935 | Share i is the weight of rows 0..i over the largest running total. |
| Growth.PercentilesOf | _build/jupyter_execute/sections/capitulo2.py:938-944 | One percentile per row; `PercentileRule`, `TopRowDropped` and `KeysInRange` state which one. |
| Growth.PercentileColumn | _build/jupyter_execute/sections/capitulo2.py:939-944 | The loop over j = 1..99 fills exactly the percentile column `PercentilesOf` defines. |
| Growth.PercentileRule | _build/jupyter_execute/sections/capitulo2.py:942-944 | A row gets percentile j ∈ 1..99 iff its share is in ((j−1)/100, j/100]. It gets none (0) iff its share is 0 or above 0.99. |
| Growth.TopRowDropped | _build/jupyter_execute/sections/capitulo2.py:942 | The last sorted row (share 1) is never assigned a percentile. |
| Growth.KeysInRange | _build/jupyter_execute/sections/capitulo2.py:942 | Every percentile present lies in 1..99. |
| Growth.PercentileMeans | _build/jupyter_execute/sections/capitulo2.py:947-948 | There is one mean per percentile present. |
| Growth.LabelMean | _build/jupyter_execute/sections/capitulo2.py:947-948 | The percentile occurs, so its row count is positive, and the mean times that count is the sum of its values. |
| Growth.PositiveMean | _build/jupyter_execute/sections/capitulo2.py:947-948 | With positive values, every percentile mean is positive. |
| Growth.Join | _build/jupyter_execute/sections/capitulo2.py:951-957 | The keys are the percentiles present in both periods. The change is undefined iff the first mean is 0. Otherwise mean₂ = (1 + change)·mean₁. |
| Growth.GrowthIncidenceCurve | _build/jupyter_execute/sections/capitulo2.py:930-957 | The method computes the growth-incidence map `GrowthIncidence` defines. |
| Growth.GrowthKeys | _build/jupyter_execute/sections/capitulo2.py:942-951 | A percentile is kept iff it is present in both periods. Every kept percentile is in 1..99. |
| Growth.GrowthOfSameData | _build/jupyter_execute/sections/capitulo2.py:957 | Two identical datasets give change 0 (or undefined for a zero mean) in every kept percentile; positive values give exactly 0. |
| Tiles.TileOf | _build/jupyter_execute/sections/capitulo3.py:235-237 | The tile lies in 0..n. It is 0 exactly when n < 1 or the share is not in (0, 1]. |
| Tiles.TileOfInterval | _build/jupyter_execute/sections/capitulo3.py:235-237 | Tile i ∈ 1..n is assigned iff the share is in ((i−1)/n, i/n]. |
| Tiles.TileOfMonotone | _build/jupyter_execute/sections/capitulo3.py:235-237 | A larger share (up to 1) never gets a smaller tile. |
| Tiles.TileUpToStep | _build/jupyter_execute/sections/capitulo3.py:235-237 | After step i, a row in tile i holds i; any other row keeps what the earlier steps wrote. |
| Tiles.TileUpTo | _build/jupyter_execute/sections/capitulo3.py:235-237 | After the masks 1..last, a row holds 0 or a tile t ≤ last, and t is the row's tile. |
| Tiles.Mark | _build/jupyter_execute/sections/capitulo3.py:237 | The masked write sets v on the masked rows and leaves the others unchanged. |
| Tiles.AssignTiles | _build/jupyter_execute/sections/capitulo3.py:233-237 | The column starts at 0. After the loop, each row holds the tile its share falls in, or 0 if none. |
| Tiles.QuintileOf | _build/jupyter_execute/sections/capitulo3.py:159-163 | The quintile lies in 0..5. |
| Tiles.QuintileRule | _build/jupyter_execute/sections/capitulo3.py:96-104 | For a share in [0, 1], every first-mask variant gives quintile k iff the share is in ((k−1)/5, k/5], and gives 1 at 0. |
| Tiles.QuintileMonotone | _build/jupyter_execute/sections/capitulo3.py:159-163 | A larger share in [0, 1] never gets a lower quintile. |
| Tiles.QuintileOutside | _build/jupyter_execute/sections/capitulo3.py:100 | Outside [0, 1] the three first-mask variants differ. The precedence-bound `>= 0` mask gives 1 to shares above 1. |
| Tiles.AssignQuintiles | _build/jupyter_execute/sections/capitulo3.py:472-477 | The five masked writes give every row the quintile `QuintileOf` defines. |
| Quantiles.Group | _build/jupyter_execute/sections/capitulo3.py:166-171 | A group has at most as many rows as the input; `GroupSum` and `GroupRows` state which rows. |
| Quantiles.GroupSum | _build/jupyter_execute/sections/capitulo3.py:166-171 | A weighted sum over the rows with label k is the per-label sum. |
| Quantiles.GroupRows | _build/jupyter_execute/sections/capitulo3.py:166-171 | Every row of group k is an input row labelled k. |
| Quantiles.PositiveSorted | _build/jupyter_execute/sections/capitulo3.py:153-154 | The retained rows are sorted and all positive. They are exactly the input rows with a positive value, with their multiplicities. |
| Quantiles.QuintileColumn | _build/jupyter_execute/sections/capitulo3.py:159-163 | Row k gets the quintile of its share. |
| Quantiles.QuintilesAscend | _build/jupyter_execute/sections/capitulo3.py:159-163 | Along the sorted rows, the quintile column never decreases. |
| Quantiles.LaterGroupAbove | _build/jupyter_execute/sections/capitulo3.py:153-171 | With sorted values and a non-decreasing label column, every value of a lower group is ≤ every value of a higher group. |
| Quantiles.GroupRatio | _build/jupyter_execute/sections/capitulo3.py:166-173 | `ZeroWeightSum` exactly when quintile 1 or quintile 5 has a weight sum of 0 (empty groups included). `ZeroMean` exactly when both weight sums are non-zero and quintile 1's income total is 0. Otherwise ratio × mean(q1) = mean(q5). |
| Quantiles.QuintileRatio | _build/jupyter_execute/sections/capitulo3.py:155-173 | A zero weight total gives `ZeroWeightSum`. The only failures are `ZeroWeightSum` and `ZeroMean`. |
| Quantiles.Q5OverQ1 | _build/jupyter_execute/sections/capitulo3.py:134-173 | Empty data gives `Err(EmptyData)` and nothing else does. Non-empty data with `x` missing gives `Err(MissingValues)` and nothing else does. |
| Quantiles.Ratq51 | _build/jupyter_execute/sections/capitulo3.py:134-173 | The method (sort, filter, shares, quintile masks, two group means) returns `Q5OverQ1`. |
| Quantiles.SortedQuintileRatio | _build/jupyter_execute/sections/capitulo3.py:155-173 | The imperative quintile assignment plus the group means give `QuintileRatio`. |
| Quantiles.GroupRatioAtLeastOne | _build/jupyter_execute/sections/capitulo3.py:166-173 | With sorted positive values and ascending labels, mean(q5)/mean(q1) ≥ 1. |
| Quantiles.QuintileRatioAtLeastOne | _build/jupyter_execute/sections/capitulo3.py:155-173 | Over sorted positive rows, a successful quintile ratio is ≥ 1. |
| Quantiles.Q5OverQ1AtLeastOne | _build/jupyter_execute/sections/capitulo3.py:153-173 | With non-negative weights, a successful `ratq51` result is ≥ 1. |
| Quantiles.QuintileCell | _build/jupyter_execute/sections/capitulo3.py:89-114 | When the weights of the rows with a positive value sum to 0 (no such rows included), the block fails with `ZeroWeightSum`. |
| Quantiles.QuintileCellAtLeastOne | _build/jupyter_execute/sections/capitulo3.py:89-114 | The per-country ratio loop (filter, sort, the `>= 0` first mask) gives a ratio ≥ 1 when it succeeds. |
| Quantiles.BucketsOf | _build/jupyter_execute/sections/capitulo3.py:231-237 | Every bucket lies in 0..num. All buckets are 0 when num < 1. |
| Quantiles.BucketRule | _build/jupyter_execute/sections/capitulo3.py:231-237 | Bucket i ∈ 1..num iff the share is in ((i−1)/num, i/num]. Bucket 0 iff the share is 0. Buckets never decrease along the sorted rows. |
| Quantiles.TileTable | _build/jupyter_execute/sections/capitulo3.py:239-241 | Fails (`ZeroWeightSum`) exactly when some bucket that occurs has weights summing to 0. Otherwise the keys are exactly the buckets that occur. Each entry's `obs` is the bucket's weight total; its mean times `obs` is the bucket's Σw·x; its variance times `obs` is Σw·(x − mean)². |
| Quantiles.QuantileTable | _build/jupyter_execute/sections/capitulo3.py:213-242 | `NonIntegerCount` exactly when num is a float that is not whole. A non-empty weight series of another length gives `ShapeMismatch`. num = 0 gives `ZeroCount`. A whole, non-zero float num gives `RangeOfFloat`, as `range(1, num + 1)` rejects it. A result is only produced for a non-zero int num. |
| Quantiles.Gcuan | _build/jupyter_execute/sections/capitulo3.py:213-242 | The method (checks, unit weights for an empty series, filter, sort, then `BucketTable`) returns `QuantileTable`. |
| Quantiles.BucketTable | _build/jupyter_execute/sections/capitulo3.py:233-241 | The bucket loop over an array starting at 0, then the aggregation, gives `TileTable` of the bucket column `BucketsOf` defines. |
| Quantiles.TableEntries | _build/jupyter_execute/sections/capitulo3.py:239-241 | The table's keys are the buckets that occur. Every entry satisfies `EntryOf` for its bucket's rows (weight total, mean × weight = income total, variance × weight = squared deviation). |
| Quantiles.StatsTimesObs | _build/jupyter_execute/sections/capitulo3.py:239-241 | One bucket's entry: `obs` is its weight total, mean × `obs` is its Σw·x, variance × `obs` is its Σw·(x − mean)². |
| Quantiles.TableObsTotal | _build/jupyter_execute/sections/capitulo3.py:241 | The `obs` entries over a label range sum to the weight of the rows with those labels. |
| Quantiles.QuantileTableObs | _build/jupyter_execute/sections/capitulo3.py:225-241 | The `obs` column sums to the total weight of the retained (x > 0) rows. |
| Quantiles.TableMeansWithin | _build/jupyter_execute/sections/capitulo3.py:239-241 | Each bucket is non-empty. Its mean lies between its smallest and largest value. Its variance is ≥ 0. |
| Quantiles.QuantileTableMeans | _build/jupyter_execute/sections/capitulo3.py:239-241 | For `gcuan` with non-negative weights: every bucket's mean lies between the bucket's min and max, and its variance is ≥ 0. |
| Households.HeadExists | _build/jupyter_execute/sections/capitulo3.py:296 | Every row's household has a head at or before that row. |
| Households.HeadFirst | _build/jupyter_execute/sections/capitulo3.py:296 | No row before a head belongs to the head's household. |
| Households.Members | _build/jupyter_execute/sections/capitulo3.py:297-298 | A row's household has at least one member. |
| Households.SizeClass | _build/jupyter_execute/sections/capitulo3.py:300-306 | The size class lies in 0..6. |
| Households.SizeMask | _build/jupyter_execute/sections/capitulo3.py:301-306 | Mask c selects the heads of households with c members (6 or more for c = 6). |
| Households.HouseholdSizes | _build/jupyter_execute/sections/capitulo3.py:300-306 | The column starts at 0 and goes through six masked writes. Every row then holds its size class. |
| Households.SizeClassMeaning | _build/jupyter_execute/sections/capitulo3.py:295-306 | Each household has exactly one row with a non-zero size. That row is its head, and the size is min(members, 6). |
| Households.SizeColumn | _build/jupyter_execute/sections/capitulo3.py:300-306 | Row i holds its size class. |
| Households.SizeShares | _build/jupyter_execute/sections/capitulo3.py:309-312 | No table when the heads' weight is 0. Otherwise the keys are exactly the size classes 1..6 that occur. |
| Households.PercentTotalStep | _build/jupyter_execute/sections/capitulo3.py:312 | The percentages of classes 1..hi−1 sum to their weight share times 100. |
| Households.SizeSharesSumTo100 | _build/jupyter_execute/sections/capitulo3.py:309-312 | The percentages per size class sum to 100. |
| Households.SizeDistribution | _build/jupyter_execute/sections/capitulo3.py:295-312 | The method returns the size shares of the computed size column. |
| Households.Taxes | _build/jupyter_execute/sections/capitulo3.py:411 | The tax of row i is its ipcf times the rate. |
| Households.Subsidies | _build/jupyter_execute/sections/capitulo3.py:413-414 | A head gets its household's total tax. Every other row gets 0. |
| Households.HeadSubsidies | _build/jupyter_execute/sections/capitulo3.py:413-414 | Two steps: every row gets its household's total tax, then every non-head row is set to 0. The resulting column is `Subsidies`. |
| Households.Redistribute | _build/jupyter_execute/sections/capitulo3.py:409-415 | The method returns ipcf − tax + subsidy per row (`Redistributed`). |
| Households.Redistributed | _build/jupyter_execute/sections/capitulo3.py:415 | `ipcf_star` of row i is ipcf − tax + subsidy, with the tax and subsidy columns `Taxes` and `Subsidies` define. |
| Households.SubsidyPrefix | _build/jupyter_execute/sections/capitulo3.py:413-414 | Over any prefix, a household's subsidies total its whole tax once its head has been seen, and 0 before. |
| Households.HouseholdIncomeKept | _build/jupyter_execute/sections/capitulo3.py:409-415 | Every household's total `ipcf_star` equals its total `ipcf`, whatever the rate. |
| Households.ZeroRateNeutral | _build/jupyter_execute/sections/capitulo3.py:411-415 | At rate 0, every `ipcf_star` equals `ipcf`. |
| Households.RatioAtZeroRate | _build/jupyter_execute/sections/capitulo3.py:416 | At rate 0, the after-tax Q5/Q1 ratio is the ratio of the original incomes. |
| Sources.Shares | _build/jupyter_execute/sections/capitulo3.py:670-680 | The shares fail (`ZeroIncomeSum`) exactly when the weighted total income is 0. |
| Sources.TotalIsSumOfSources | _build/jupyter_execute/sections/capitulo3.py:670-676 | The weighted `itot` is the sum of the five weighted source totals, with missing values counted as 0. |
| Sources.SharesAddUp | _build/jupyter_execute/sections/capitulo3.py:670-680 | Labour + capital + transfers + the `ionl` share = 1. |
| Sources.SourceSumsNonNeg | _build/jupyter_execute/sections/capitulo3.py:671-675 | With non-negative sources and weights, every weighted source total is ≥ 0. |
| Sources.SharesBounded | _build/jupyter_execute/sections/capitulo3.py:678-680 | With non-negative sources and weights, each share is in [0, 1] and the three together are ≤ 1. |

## Left out

- Data acquisition is out of the model: downloads, zip handling, `pd.read_stata`, the `import_dta` URL table and the pauses. It is I/O.
- Plotting, the ANSI `style` classes and the string formatting of results are out of the model. The model returns numbers.
- `math.sqrt` and `np.log` are not modelled. Dafny's reals have no square root or logarithm:
  - the summary and `gcuan` carry the variance instead of the standard deviation;
  - `Describe.CvSquared` gives cv² instead of cv;
  - `Curves.ParetoSurvival` gives 1 − shrpop_region instead of its logarithm.
- The random normal sample, `stats.norm.pdf` and the sample-design section (`econtools.group_id`, pandas `std`/`count`, standard errors) are out of the model. They are random, library or square-root computations.
- Floating-point rounding is not modelled. Arithmetic is exact `real`, and "ends at exactly 1" is meant in exact arithmetic.
- NaN and infinity are not propagated. Where a total can be zero, the model either returns an error value or demands a non-zero total:
  - the summary, the weighted percentiles, the poverty rate, the growth-incidence share column, `ratq51`, `gcuan` and the income-source shares return an `Err` or `None` result for a division by a zero total, where pandas or numpy give NaN, inf or an exception;
  - a missing (NaN) income source is an `Option`, counted as 0 as `fillna(0)` and `np.sum` do;
  - the curve members below `require` the totals they divide by to be non-zero, and say nothing about the NaN columns the source produces otherwise.
- Curves.CumShareOf, Curves.Shrpop and Curves.Lorenz require a non-zero weight total (and, for Lorenz, a non-zero income total). With a zero total the source's `shrpop`, `shrinc` and Lorenz columns are NaN or inf (capitulo2.py:515, 771-777).
- Curves.GroupShares, Curves.ParetoSurvival, Curves.GeneralizedLorenzCurve, Curves.NormalizeByGroupMax, Curves.RegionalLorenz and Curves.GeneralizedLorenz require the largest running total of every region to be non-zero (`GroupMaxesNonZero`). With a zero there the source leaves NaN or inf in that region's rows (capitulo2.py:582, 805-806, 813-814, 860-861). Curves.DivideGroup likewise requires its divisor `aux2` to be non-zero.
- The regional sort `sort_values(by=["region", "ipcf"])` (capitulo2.py:575, and the sort before the regional Lorenz curves) is not modelled. The per-region members take the rows in the order given. Their facts are about running totals in row order, so they hold for the sorted order as for any other; what the model does not state is that the regional columns are those of rows sorted by income.
- Sorting uses one fixed order, (value, weight):
  - this is exactly `sort_values(by=["ipcf","pondera"])`;
  - `argsort` and `sort_values(by=[x])` may break value ties in another order;
  - the statistics that depend only on values and sums are unaffected, but cumulative shares at tied values may differ.
- Data frames are modelled as parallel columns of equal length:
  - pandas index alignment in `pd.concat` is not modelled; a length mismatch is `ShapeMismatch`;
  - Quantiles.Q5OverQ1 requires `|x| == |w|`, because columns of one data frame always have the same length.
- `ratq51`'s `weight=None` branch is not modelled, because it indexes a column by `None` and cannot work. The weight column is always given. Unit weights are available as `BoxPlot.Ones`, as `gcuan` uses them.
- `gcuan` with a negative integer `num` is modelled only as far as the bucket loop, which then runs zero times (every bucket is 0). The `newvar` column name is not modelled.
- `gcuan`'s `num` is an int or a float (`Quantiles.Count`). A float `num` that is whole passes the `int(num) != num` test and then fails in `range(1, num + 1)`; the model returns `RangeOfFloat` for it, not an exception.
- `box_plotInput` keys its dictionary by the string `"p{p}"`. The model keys it by the integer percent, and non-integer percents are not modelled.
- The household code first sorts by `id`. The model takes the rows in the given order and defines a household's head as its first row in that order (`cumcount() == 0`). This is the same row for every order that keeps the household's rows in their relative positions.
- The `results` tables filled through the counters `j` and `c`, and the `df_total.merge` on `tamanio`, are out of the model. They are table layout.
- Quantiles.QuintileCell states only its failure case and the ratio ≥ 1 bound (in `Quantiles.QuintileCellAtLeastOne`), not the printed, rounded value.
- Quantiles.GroupRatio does not say which quintile had the zero weight sum. `np.average` raises `ZeroDivisionError` for either one, and both are the one error kind `ZeroWeightSum` here.
- Quantiles.GroupRatio treats a zero first-quintile mean as the error `ZeroMean`. numpy would return an infinite or NaN quotient there.
