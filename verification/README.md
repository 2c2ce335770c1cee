# Horse-racing dashboard: record logic in Dafny

A functional model of the record logic of a small horse-racing dashboard:

- the per-horse summary statistics of `calculate_horse_stats` (starts, wins,
  top-2 and top-3 counts, mean finishing position, the three percentage rates,
  total prize and mean odds);
- the sidebar filter in `main` (selected horses, selected racecourses and an
  inclusive date range that is only applied when both bounds were picked);
- the race-history tab (one horse's filtered rows, newest race first);
- the synthetic data generator `generate_sample_horse_data`, with every random
  draw passed in as a parameter constrained to the range it is drawn from.

A race result is the immutable datatype `Records.RaceRecord`; a table is a
`seq<RaceRecord>`. Dates are integer day numbers. Rates and means are exact
`real`s. Every row-mask selection of the dashboard is `Rows.Where(rows, mask)`, which keeps
the accepted rows in table order.

Files: `records.dfy` (record type), `rows.dfy` (mask selection),
`stats.dfy` (statistics), `filter.dfy` (sidebar filter), `detail.dfy`
(race-history ordering), `generator.dfy` (sample data).

Two details of the generator shape the model:

- The hidden strength that picks the finishing-position tier is drawn anew for
  every race, inside the per-race loop (sample_data.py:59), so
  `Generator.RaceDraw` carries a `strength` per race.
- The clock is read once per race, inside the per-race loop (sample_data.py:56),
  so `Generator.RaceDraw` also carries the day `now` the clock reads for that
  race. A run whose clock readings fall on days `first..last` dates every race
  within `first - 730 .. last`; a run that crosses midnight can date a race on
  the later day.
- The weak tier draws uniformly from 5..18 (sample_data.py:71). It is modelled as
  14 positions of weight 1/14 each, so that all three tiers share one shape.

## Model

| member | source | states |
|---|---|---|
| Rows.Where | dashboard.py:67 | a row is selected iff it is in the table and the mask accepts it; never more rows than the table |
| Rows.WhereIsSubsequence | dashboard.py:133-143 | masking keeps the selected rows in their table order |
| Rows.WhereMultiset | dashboard.py:133-143 | each accepted row is kept exactly as often as it occurs; rejected rows never |
| Rows.WhereIdempotent | dashboard.py:133-143 | applying the same mask twice equals applying it once |
| Rows.WhereAppend | dashboard.py:67 | masking a concatenated table is the concatenation of the masked parts |
| Rows.WhereConjunction | dashboard.py:134-139 | a conjunction of masks selects what the masks applied in turn select |
| Rows.WhereMonotone | dashboard.py:74-76 | a weaker mask never selects fewer rows |
| Stats.Select | dashboard.py:67 | the selected rows are exactly the table rows with the given horse name |
| Stats.CalculateHorseStats | dashboard.py:65-91 | absent exactly when no row has the horse name; otherwise starts is the number of the horse's rows and is positive, wins <= top2 <= top3 <= starts, 0 <= win rate <= top-2 rate <= top-3 rate <= 100, win rate = wins / starts * 100, top-2 rate = top2 / starts * 100, top-3 rate = top3 / starts * 100 |
| Stats.StartsCountOwnRows | dashboard.py:67-73 | starts counts each of the horse's rows as often as it occurs and no row of another horse |
| Stats.StatsMatchReference | dashboard.py:67-88 | against row-by-row reference counts and sums over the rows carrying the horse's name: starts is the number of those rows; wins, top-2 and top-3 count those with finish == 1, <= 2 and <= 3; the three rates are those counts over starts times 100; mean finish and mean odds are the sums of finishes and odds over starts; total prize is the sum of prizes |
| Stats.MeanFinishWithinRange | dashboard.py:77 | the mean finishing position lies between the horse's best and worst finishing position |
| Stats.MeanOddsWithinBounds | dashboard.py:88 | the mean odds lie within any bounds that all of the horse's odds respect |
| Stats.TotalPrizeNonnegative | dashboard.py:87 | when every prize is non-negative the total prize is non-negative |
| Stats.StatsAdditive | dashboard.py:73-87 | starts, wins, top-2, top-3 and total prize of a table split in two are the sums over the two parts (absent counts as zero) |
| Stats.StatsDependOnlyOnOwnRows | dashboard.py:67 | the statistics over the whole table equal those over the horse's own rows alone |
| Stats.OtherHorseRowIrrelevant | dashboard.py:67 | inserting or removing a row of another horse anywhere leaves the statistics unchanged |
| Stats.ThreeRaceExample | dashboard.py:72-89 | finishes 1, 3, 5 with prizes 500, 0, 0 give 3 starts, 1 win, 1 top-2, 2 top-3, mean 3, rates 100/3 and 200/3 percent, prize 500 |
| RowFilter.FilterRows | dashboard.py:133-143 | a row is kept iff its horse and venue are selected and, when two dates were given, lo <= date <= hi |
| RowFilter.FilterKeepsOrderAndMultiplicity | dashboard.py:133-143 | the filtered table is an order-preserving subsequence holding each admitted row as often as the table does |
| RowFilter.FilterIdempotent | dashboard.py:133-143 | filtering a filtered table with the same selection changes nothing |
| RowFilter.IncompleteDatesIgnored | dashboard.py:140-143 | with no date or a single date the result is the horse-and-venue filter alone |
| RowFilter.DateRangeNarrows | dashboard.py:133-143 | the two-date result is the horse-and-venue result further masked by the day range, hence a subsequence of it |
| RowFilter.WiderSelectionKeepsMore | dashboard.py:133-143 | selecting more horses and venues yields a supersequence of the narrower result |
| RowFilter.EmptyDayRange | dashboard.py:133-139 | a one-day range on which no race was run yields an empty table |
| Detail.InsertByDate | dashboard.py:264 | inserting into a newest-first list keeps it newest first and adds exactly that row |
| Detail.SortNewestFirst | dashboard.py:264 | the sorted rows are a permutation of the input with non-increasing race days |
| Detail.DetailView | dashboard.py:261-264 | the history rows are a permutation of the horse's filtered rows, sorted newest first, and contain exactly the filtered rows with that name |
| Detail.DetailOfFilteredTable | dashboard.py:133-143 | the history of a filtered table holds each table row of that horse admitted by the sidebar as often as it occurs; a horse outside the selection has an empty history |
| Detail.DetailLengthIsStarts | dashboard.py:261-264 | the history lists as many races as the statistics count starts |
| Generator.TierDistributions | sample_data.py:61-71 | each tier's weights are positive, one per position, and sum to 1 |
| Generator.FinishFor | sample_data.py:61-71 | the strong tier finishes 1..5, the middle tier 1..8, the weak tier 5..18; always within 1..18 |
| Generator.GenerateRace | sample_data.py:53-108 | a generated race has 1 <= finish <= field size <= 18, field size >= 8, popularity in 1..field size, prize 0 beyond 5th and within 0..20000, distance, venue, track, weather and jockey from their fixed lists, date at most 730 days before the day the clock reads for that race and not after it, odds in 1.2..50 |
| Generator.GenerateRaces | sample_data.py:53-110 | a horse gets one record per drawn race, the i-th built from the i-th draw, all carrying its name and all plausible for the days `first..last` the clock read |
| Generator.GenerateAll | sample_data.py:48-110 | the output length is the sum of the per-horse race counts; every record names a roster horse and is plausible for the days `first..last` the clock read |
| Generator.TotalRacesBounds | sample_data.py:50 | with every race count in 10..20, the total lies between 10 and 20 times the number of horses |
| Generator.GenerateSampleData | sample_data.py:7-112 | the data set has between 200 and 400 records, all plausible and all naming a roster horse |
| Generator.GroupedInRosterOrder | sample_data.py:48-110 | records come grouped by horse in roster order |
| Generator.RowsPerHorse | sample_data.py:48-53 | each roster horse has exactly as many records as its drawn race count |
| Generator.EveryHorseHasStatistics | sample_data.py:48-53 | every roster horse appears in the data set and its statistics count 10..20 starts, its race count |
| Generator.SampleDataGroupedByHorse | sample_data.py:48-110 | the sample data set is grouped by horse in roster order |
| Generator.RosterDistinct | sample_data.py:11-32 | the 20 roster names are pairwise different |

## Left out

- `load_data` (dashboard.py:48-62): file existence check, CSV read and write, date parsing and the framework cache are I/O.
- All page, sidebar, tab, card and chart calls of `main` (dashboard.py:11-45, 94-131, 145-305 outside the filter and the history sort): presentation only. This includes the warning and early return on any empty filtered table (dashboard.py:145-147); `RowFilter.EmptyDayRange` only proves that one such scenario, a one-day range without races, yields an empty table.
- The grouped mean-finish series behind the distance and track-condition charts (dashboard.py:219-242): aggregation that only feeds charts.
- Decimal rounding by `round(...)` of the mean finish, the rates and the mean odds (dashboard.py:77-88): the model keeps exact rationals.
- Floating-point odds: odds are exact reals; the generator's rounding of the odds draw to one decimal (sample_data.py:106) is not modelled, only its range.
- The race-time string and the weight-carried draw (sample_data.py:78-79, 104): float arithmetic and formatting; the record has no time or weight field.
- The unused horse-age draw (sample_data.py:51) and `save_sample_data` (sample_data.py:115-120), which writes a file.
- The wall clock (sample_data.py:55-56): each race's clock reading is the field `now` of its draw, bounded by the parameters `first..last`; that readings never decrease during a run is not modelled. The offset is a draw in 0..730.
- Random-source consumption order: the prize draw is a parameter in 0..20000 even for races where the source does not draw it (finish beyond 5th); the record then holds 0.
- Tie order in the history sort: rows with equal race days may come out in any order, as the source's default sort is not stable; only order by date and permutation are stated.
