# Pikmin survey pages, modelled in Dafny

A Dafny model of the logic behind a Pikmin 2 fan site. The site has these parts:

- **Cave survey report** (`pikmin2_cave_surveys.py`). It turns simulated cave-generation counts into HTML tables. A grid of cells can hold the sentinel `↓` ("same as the cell above"). `create_table` folds each sentinel into the cell above it as a `rowspan` and then renders the rows. The report builds count tables, true/false tables, mitites-probability tables, the CH2-2 room cross-tab and the CH28 egg/electric-spider grid. It dispatches on the stage code name.
- **Survey counter** (`tools/CaveGenEdited.java`). Each generated sublevel is classified into one or two canonical keys such as `{eggs: 3, elec: true}`. Each key's counter is bumped, and the counter is printed as one JSON-like line.
- **Trial merger** (`tools/concat_trials.py`). It sorts survey lines by seed, checks that their seed ranges are contiguous, and merges them into one line with per-key sums.
- **JavaScript pages.** The `Matrix` container (`static/js/Matrix.js`). The 30-parts sliding puzzle (`docs/static/js/30parts-puzzle.js`). The egg lottery (`static/js/egg-lottery.js`).
- **Galleries.** The treasure table (`scripts/pikmin2_treasures.py`). The pixel-art gallery (`pixel_arts.py`).

## Modules

There is one module per component:

- `RowspanTable`, `ReportGrids` and `CaveReport`: the report.
- `CaveGen`: the counter.
- `ConcatTrials`: the merger.
- `Matrices`, `PartsPuzzle` and `EggLottery`: the JavaScript pages.
- `Treasures` and `PixelArts`: the galleries.

These modules are shared:

- `Results`: errors, `Option` and `Result`.
- `Text`: numerals, hex, join/split and string sorting.
- `SurveyKeys`: the canonical key text and a reader for it.
- `CountMaps`: count maps.
- `Trials`: trial records and the output line.

Python and Java exceptions become `Err` values of a `Result`. These include `AssertionError`, `KeyError`, `ValueError`, `IndexError`, `ZeroDivisionError`, `NotImplementedError` and `UnsupportedOperationException`. The page state machines are pure functions from one page state to the next, and the handlers' loops are methods with invariants.

Two details of the code shape the model:

- **Rowspan scan.** Row 1 receives the weight of a `↓` in row 2, so the caption `件数／確率` of the count tables spans rows 1-3. Only sentinels in rows 0 and 1 are never cleared.
- **Cross-tab corner.** The cross-tab's corner cell holds the trial size `num`, not the sum of the six counts (`CaveReport.Margins`).

## Model

| member | source | states |
|---|---|---|
| RowspanTable.MergedCells | pikmin2_cave_surveys.py:26-40 | Closed form of the merge loop's cells: every sentinel in row 2 or below is cleared and nothing else changes; same shape as the input |
| RowspanTable.Weights | pikmin2_cave_surveys.py:26-40 | Closed form of the rowspans: 0 at a folded sentinel, otherwise 1 plus the run of folded sentinels directly below; same shape as the input |
| RowspanTable.ColumnConservation | pikmin2_cave_surveys.py:33-34 | The merge only moves weight upward, so every column's rowspans add up to the number of rows |
| RowspanTable.SentinelFreeWeights | pikmin2_cave_surveys.py:26-40 | A grid with no `↓` in rows 2 and below is left unchanged and every weight is 1 |
| RowspanTable.PlainColumn | pikmin2_cave_surveys.py:26-40 | A column without sentinels below row 1 keeps weight 1 in every row |
| RowspanTable.StackedSpan | pikmin2_cave_surveys.py:26-40 | A, ↓, ↓ in rows 1-3 gives A a rowspan of 3 and the two sentinels weight 0; row 0 keeps 1 |
| RowspanTable.FirstDown | pikmin2_cave_surveys.py:30-31 | The inner scan finds the leftmost `↓` at or after column j, or runs off the row |
| RowspanTable.Scan | pikmin2_cave_surveys.py:29-36 | The scan from the last row up to row 2 finds the lowest row holding a `↓` and its leftmost one; None means no `↓` remains in rows 2 and below |
| RowspanTable.StepPreserves | pikmin2_cave_surveys.py:31-35 | One merge step (clear the cell, add its weight above, zero it) keeps the loop invariant and strictly shrinks the set of waiting sentinels, so the loop terminates |
| RowspanTable.WaitingShrinks | pikmin2_cave_surveys.py:31-32 | Clearing a sentinel in row 2 or below removes exactly that cell from the sentinels still waiting |
| RowspanTable.FinalState | pikmin2_cave_surveys.py:39-40 | When the scan finds nothing, the cells and rowspans equal the closed forms |
| RowspanTable.MergeRowspans | pikmin2_cave_surveys.py:26-40 | The loop, as written with restart-from-the-bottom, returns exactly MergedCells and Weights |
| RowspanTable.KeptColumns | pikmin2_cave_surveys.py:44-46 | The rendered columns of a row are exactly its columns of nonzero weight, in increasing order |
| RowspanTable.RenderRows | pikmin2_cave_surveys.py:42-58 | One rendered row per grid row, with as many cells as the row has nonzero weights |
| RowspanTable.RenderedCell | pikmin2_cave_surveys.py:42-58 | A rendered cell carries a rowspan exactly when its weight is not 1, and then the weight; its content is the cell (blank if folded); its style is plain `padding:5` exactly when no colour grid is given or the colour is empty |
| RowspanTable.SentinelFreeRender | pikmin2_cave_surveys.py:42-58 | A sentinel-free grid renders every cell, in order, with no rowspan |
| RowspanTable.AllKept | pikmin2_cave_surveys.py:44-46 | When all weights are 1, every column is kept, in order |
| RowspanTable.CreateTable | pikmin2_cave_surveys.py:10-61 | create_table returns the rendering of the merged grid |
| ReportGrids.LeadingRun | pikmin2_cave_surveys.py:78-83 | left_skip is the length of the leading run of zeros: all before it are zero and the next (if any) is not |
| ReportGrids.SkipKeepsSum | pikmin2_cave_surveys.py:77-84 | Dropping the leading zeros does not change the total |
| ReportGrids.PartBelowSum | pikmin2_cave_surveys.py:90 | Each non-negative count is at most the total, so its tuple's assertion holds |
| ReportGrids.ZeroSumAllZero | pikmin2_cave_surveys.py:77-83 | Non-negative counts totalling zero are all zero, so everything is skipped |
| ReportGrids.ProbTuple | pikmin2_cave_surveys.py:161-163 | get_prob_tuple succeeds exactly for 0 ≤ p ≤ 1 and otherwise fails its assertion; on success it is the percentage and fraction of p |
| ReportGrids.CountProbTuple | pikmin2_cave_surveys.py:165-167 | get_count_prob_tuple fails its assertion unless 0 ≤ count ≤ total, divides by zero when total is 0, and otherwise gives count, percentage and fraction of count/total |
| ReportGrids.ShareBounds | pikmin2_cave_surveys.py:167 | count/total lies in [0, 1], times total gives count back, and is 1 for count == total |
| ReportGrids.IndexLabels | pikmin2_cave_surveys.py:74-75 | The default labels are "0" .. "n-1" |
| ReportGrids.BandColors | pikmin2_cave_surveys.py:93-95 | The colour grid has the table's shape |
| ReportGrids.CountTable | pikmin2_cave_surveys.py:63-97 | A label list of the wrong length fails the assertion; a negative count fails an assertion; an all-zero total divides by zero; otherwise the table is 4 × (n − skip + 2) with a colour grid of the same shape |
| ReportGrids.CountTableOutcome | pikmin2_cave_surveys.py:77-92 | Every shown count is within [0, total] exactly when all counts are non-negative; a zero total shows no column; the first shown count is nonzero |
| ReportGrids.CountTableParts | pikmin2_cave_surveys.py:84-92 | The table is the sheet of the labels, the skip, one tuple per shown count and the total's tuple |
| ReportGrids.CountTableFrame | pikmin2_cave_surveys.py:84-92 | Column 0 is blank, `件数／確率`, `↓`, `↓`; the last column is `合計` over the total's count, 100% and 1/1 |
| ReportGrids.CountTableColumn | pikmin2_cave_surveys.py:88-90 | Column c shows label and tuple of count number c − 1 + skip, so only the leading zeros are dropped |
| ReportGrids.CountTableSpans | pikmin2_cave_surveys.py:85-86 | Rendered, the caption spans rows 1-3 and every other cell spans one row |
| ReportGrids.TrueFalseTable | pikmin2_cave_surveys.py:99-103 | Anything but two counts fails the label-length assertion |
| ReportGrids.TrueFalseBoth | pikmin2_cave_surveys.py:99-103 | Two positive counts give columns `あり`, `なし` and a total column with their sum |
| ReportGrids.TrueFalseNoOnly | pikmin2_cave_surveys.py:78-83 | A zero `あり` count is skipped, leaving only the `なし` column and the total |
| ReportGrids.Binomial | pikmin2_cave_surveys.py:171 | math.comb: 0 above n, 1 at 0 and n |
| ReportGrids.MititesProb | pikmin2_cave_surveys.py:169-171 | The binomial chance of m sets among n eggs at 1/20 each is non-negative and 0 for m > n |
| ReportGrids.MititesFromEggs | pikmin2_cave_surveys.py:116-122 | The egg path yields one mixture per egg count, each the sum from eggs = m upward, non-negative for non-negative egg chances |
| ReportGrids.MititesTable | pikmin2_cave_surveys.py:105-142 | Fails its assertion unless exactly one of the inputs is given; succeeds exactly when every resulting probability is in [0, 1] |
| ReportGrids.MititesTableFrame | pikmin2_cave_surveys.py:131-140 | The cell grid is 3 × (len − skip + 1) under `タマゴムシのセット数`, `確率`, `↓`, while the colour grid keeps the unskipped width len + 1 |
| ReportGrids.MititesTableColumns | pikmin2_cave_surveys.py:135-137 | Column c is headed by the set count c − 1 + skip over that probability's percentage and fraction |
| ReportGrids.MititesTableSpans | pikmin2_cave_surveys.py:133-134 | Rendered, `確率` spans two rows and every data cell one |
| ReportGrids.Convolution | pikmin2_cave_surveys.py:257-260 | The convolution of two distributions has length \|a\| + \|b\| − 1 |
| ReportGrids.Convolve | pikmin2_cave_surveys.py:257-260 | The double loop of additions leaves entry k equal to the sum over i + j = k of a[i]·b[j] |
| CaveReport.Find | pikmin2_cave_surveys.py:213 | A result lookup finds a value exactly when some entry has the key, and the value is that entry's |
| CaveReport.FindEntry | pikmin2_cave_surveys.py:213 | With distinct keys every entry is found under its own key |
| CaveReport.Read | pikmin2_cave_surveys.py:213 | `result[key]` raises KeyError(key) exactly when the key is absent |
| CaveReport.OneFieldSpellings | pikmin2_cave_surveys.py:213 | The keys the report looks up are the canonical key texts the counter writes |
| CaveReport.RoomKeySpelling | pikmin2_cave_surveys.py:234 | `{room: R, mitites: M}` is the canonical two-field key text |
| CaveReport.EggKeySpelling | pikmin2_cave_surveys.py:278 | `{eggs: N, elec: B}` is the canonical two-field key text |
| CaveReport.ParseKeyReadsKeys | pikmin2_cave_surveys.py:265 | The key reader reads every well-formed key text back to its key |
| CaveReport.DisplayName | pikmin2_cave_surveys.py:181-184 | A name without '-' shows the Japanese name; only a name with '-' can fail (ValueError from int()) |
| CaveReport.SublevelName | pikmin2_cave_surveys.py:182-184 | `AREA-n` shows the Japanese name followed by ` (地下n階)` |
| CaveReport.Titled | pikmin2_cave_surveys.py:212-215 | A titled table is the title then the table, or the table's error |
| CaveReport.Followed | pikmin2_cave_surveys.py:249-262 | A second table follows the first after a margin and its title; the first error wins |
| CaveReport.YesNoParts | pikmin2_cave_surveys.py:211-225 | Reads `{f: true}` then `{f: false}`, failing with KeyError on the first missing one, then builds the true/false table |
| CaveReport.RoomColumn | pikmin2_cave_surveys.py:232-237 | Column m of the cross-tab: the set count, then each room's count tuple, then the three rooms' sum; a missing circle key raises KeyError |
| CaveReport.TotalColumn | pikmin2_cave_surveys.py:238-242 | The total column is `合計`, per-room tuples, and the trial size's tuple, which needs num > 0 |
| CaveReport.RoomCrossTab | pikmin2_cave_surveys.py:226-247 | The cross-tab is 13 × 4 and holds the room counts; its row and column totals are the margins of the six counts, and the corner is num |
| CaveReport.CrossTabMargins | pikmin2_cave_surveys.py:237-242 | The cross-tab's counts make the per-room totals the sums over both set counts and the sum row the sums over the three rooms |
| CaveReport.RoomCrossTabSpans | pikmin2_cave_surveys.py:230-231 | Rendered, each room label spans its three rows |
| CaveReport.BothSublevels | pikmin2_cave_surveys.py:252-260 | The B1 × B2 mitites distribution has five entries |
| CaveReport.NumberKeyField | pikmin2_cave_surveys.py:265 | Reading a field back from a one-field number key gives the number |
| CaveReport.MaxField | pikmin2_cave_surveys.py:265 | max over an empty result raises ValueError; otherwise the value is the largest field read from the keys, and an unreadable key fails |
| CaveReport.CountsUpTo | pikmin2_cave_surveys.py:266 | The count list has one entry per value 0 .. max |
| CaveReport.CountsUpToComplete | pikmin2_cave_surveys.py:265-267 | For keys the counter wrote, every entry's count lands at its own number in the list |
| CaveReport.EggShares | pikmin2_cave_surveys.py:309 | Each egg chance times num gives the egg count back |
| CaveReport.EggKeyElec | pikmin2_cave_surveys.py:283 | Reading `elec` back from a key the counter wrote gives the flag it wrote |
| CaveReport.ElecSum | pikmin2_cave_surveys.py:283-284 | The elec-filtered sum is defined exactly when every key can be read for `elec` |
| CaveReport.ElecSplit | pikmin2_cave_surveys.py:283-284 | The true and false sums add up to the sum of all counts |
| CaveReport.EggColumn | pikmin2_cave_surveys.py:277-282 | Column e shows the count with and without the spider for e eggs, 0 when absent |
| CaveReport.ElecGrid | pikmin2_cave_surveys.py:269-291 | The CH28 grid is 7 × 8 with the egg counts per column and the two elec sums in the total column |
| CaveReport.ElecGridTotal | pikmin2_cave_surveys.py:283-286 | The two totals of the CH28 grid add up to the sum of all counts |
| CaveReport.StageParts | pikmin2_cave_surveys.py:211-313 | Each known stage builds its tables; any other name raises NotImplementedError |
| CaveReport.ParseData | pikmin2_cave_surveys.py:173-318 | The report succeeds exactly when every stage's name and tables succeed; then it has one contents entry and one section per stage, in order, with the matching anchors and tables |
| CaveReport.UnknownStage | pikmin2_cave_surveys.py:312-313 | Once the contents are built, the first unknown stage makes the whole report raise NotImplementedError |
| CaveGen.TekiNames | tools/CaveGenEdited.java:19-20 | The names of the placed enemies, in order |
| CaveGen.AnyNamed | tools/CaveGenEdited.java:18-23 | The flag loop finds true exactly when the name is among the placed enemies |
| CaveGen.Tallied | tools/CaveGenEdited.java:125-133 | The number loop counts exactly the occurrences of the name |
| CaveGen.AnyChocolate | tools/CaveGenEdited.java:74-86 | The chocolate flag is true exactly when some Jigumo has item "chocolate"; a null item never counts |
| CaveGen.SupportedPairs | tools/CaveGenEdited.java:12-257 | The if-chain has a branch for exactly 23 (cave, sublevel) pairs |
| CaveGen.TwoKeyPairs | tools/CaveGenEdited.java:87-242 | Exactly GK-3 (lines 87-103), CH18-1 (lines 155-172) and CH28-1 (lines 227-242) put a first key before the final bump |
| CaveGen.BranchKeys | tools/CaveGenEdited.java:11-254 | A branch yields two keys for the three two-key branches and one otherwise |
| CaveGen.StepKeys | tools/CaveGenEdited.java:11-257 | A step succeeds exactly for a supported pair; otherwise it throws UnsupportedOperationException("cave-sublevel") |
| CaveGen.FlagBranches | tools/CaveGenEdited.java:12-37 | FC-4 writes murasakipom true exactly when a BlackPom is placed; SC-4 writes oogane true exactly when a Wealthy is placed |
| CaveGen.NumberBranches | tools/CaveGenEdited.java:125-154 | CH2-2 writes the number of TamagoMushi and CH8-1 the number of Kochappy placed |
| CaveGen.NamedCount | tools/CaveGenEdited.java:125-133 | The multiset count of a name equals the number of positions holding it |
| CaveGen.ChocolateBranch | tools/CaveGenEdited.java:74-86 | CoS-4's key is the chocolate flag over the placed Jigumo |
| CaveGen.EggElecGeyser | tools/CaveGenEdited.java:227-242 | CH28-1 first writes `{eggs: N, elec: B}` and then `{geyser: B}` |
| CaveGen.RunStaysFailed | tools/CaveGenEdited.java:255-257 | Once a step throws, the run ends with that exception |
| CaveGen.SurveyRun | tools/CaveGenEdited.java:8-259 | No steps give no keys; an unsupported pair throws on the first step; a supported one gives the keys of every step in order |
| CaveGen.CountSteps | tools/CaveGenEdited.java:8-259 | The counter loop fails exactly when the run throws; otherwise the counter counts every key the run wrote |
| CaveGen.Survey | tools/CaveGenEdited.java:3-271 | The constructor fails exactly for an unsupported pair with at least one seed; otherwise the counter tallies the keys and the line is the serialisation in the map's own entry order |
| CaveGen.EntryOrder | tools/CaveGenEdited.java:263 | The entry iteration visits every key of the counter exactly once |
| CaveGen.Serialize | tools/CaveGenEdited.java:261-270 | The string the loop builds, with ", " before all but the first entry, is the survey line of the counter |
| CaveGen.SurveyKeyCount | tools/CaveGenEdited.java:101 | A run of n steps writes n keys, or 2n in the two-key branches |
| CaveGen.CounterTotal | tools/CaveGenEdited.java:258 | The counts add up to numToGenerate, or twice that in the two-key branches |
| CaveGen.StepKeysReadBack | pikmin2_cave_surveys.py:265 | Every key the counter writes (the `{field: value}` text built as at CaveGenEdited.java:24) is read back field for field by the report's key reader |
| CaveGen.SameLineAsMerger | tools/CaveGenEdited.java:261 | For seeds and counts below 2^31 the counter's line is the line the merger prints for the same map and key order |
| ConcatTrials.SortBySeed | tools/concat_trials.py:15 | The sort keeps the same trials and orders them by seed |
| ConcatTrials.SortBySeedStable | tools/concat_trials.py:15 | The sort is stable: for every seed, the trials with that seed appear in their input order, which with the seed order and the permutation fixes the result |
| ConcatTrials.TieOrderDecides | tools/concat_trials.py:15-19 | The input order of trials sharing a seed decides the contiguity assertion: seed 0 with 5 seeds and then seed 0 with none fails, the reverse order passes |
| ConcatTrials.MergeAll | tools/concat_trials.py:24-28 | The merged keys are exactly those some trial holds, each mapped to its sum over the trials, absent counting 0 |
| ConcatTrials.AbsentKeyTotal | tools/concat_trials.py:28 | A key no trial holds totals 0 |
| ConcatTrials.ContiguousSpan | tools/concat_trials.py:22 | Under contiguity, last.seed + last.num − first.seed equals the sum of the nums |
| ConcatTrials.Concat | tools/concat_trials.py:15-29 | Empty input raises IndexError, a gap or overlap fails the assertion; otherwise the seed is the smallest seed, num the sum of nums, and the result the per-key sums |
| ConcatTrials.SortedFirst | tools/concat_trials.py:21 | The first sorted seed is one of the seeds and the smallest |
| ConcatTrials.MergedGrandTotal | tools/concat_trials.py:24-28 | The merged counts add up to the sum of every trial's counts |
| ConcatTrials.SortedKeys | tools/concat_trials.py:29 | The merged keys come out once each in ascending order |
| ConcatTrials.ConcatOutput | tools/concat_trials.py:15-31 | The printed line is `{"seed": 0x…, "num": 0x…, "result": {…}}` of the merged trial with sorted keys, or the merge's error |
| CountMaps.Bump | tools/CaveGenEdited.java:258 | getOrDefault + 1 adds the key with 1 or increases it by one, and leaves the others |
| CountMaps.Add | tools/concat_trials.py:27-28 | Adding two maps gives the union of keys with summed values |
| CountMaps.TallyCounts | tools/CaveGenEdited.java:258 | Bumping a list of keys gives each key its number of occurrences |
| CountMaps.TotalTally | tools/CaveGenEdited.java:258 | The counts of a tally add up to the number of bumps |
| CountMaps.TotalAdd | tools/concat_trials.py:24-28 | The total of a sum of maps is the sum of their totals |
| Trials.SumOfPermutation | tools/concat_trials.py:15 | Reordering the trials does not change a sum over them |
| Trials.EntryTexts | tools/concat_trials.py:31 | One `"key": count` text per key, in the given order |
| SurveyKeys.KeyText | tools/CaveGenEdited.java:24 | A key is written `{field: value, …}` |
| SurveyKeys.KeyTextRoundTrip | pikmin2_cave_surveys.py:265 | Reading the written text of a well-formed key gives the key back |
| SurveyKeys.FieldRoundTrip | pikmin2_cave_surveys.py:283 | Reading a written field gives the field back |
| SurveyKeys.ValueRoundTrip | pikmin2_cave_surveys.py:283 | Reading a written boolean, integer or word gives the value back |
| SurveyKeys.Lookup | pikmin2_cave_surveys.py:265 | A field lookup succeeds exactly when the key has the field, and gives its value |
| Text.NumeralRoundTrip | tools/CaveGenEdited.java:261 | Reading back a numeral in any base from 2 to 16 gives the number |
| Text.IntTextRoundTrip | pixel_arts.py:11-12 | int() of an integer's decimal text gives the integer |
| Text.JavaHex08 | tools/CaveGenEdited.java:261 | Java's `%08X` of an int is eight hex digits whose value is the int read as an unsigned 32-bit number |
| Text.HexRenderingsAgree | tools/concat_trials.py:31 | For values below 2^31, Python's `%08X` equals Java's |
| Text.ZeroPad | tools/concat_trials.py:31 | Zero padding keeps the text as a suffix and fills the front with '0' up to the width |
| Text.JoinSnoc | static/js/egg-lottery.js:76 | Joining one more part appends the separator and the part |
| Text.Split | pixel_arts.py:10 | Splitting gives at least one part, none holding the separator |
| Text.SplitJoin | static/js/egg-lottery.js:76 | Splitting parts joined by a separator they lack gives the parts back |
| Text.BelowTotal | tools/concat_trials.py:29 | The string order is total |
| Text.BelowTransitive | tools/concat_trials.py:29 | The string order is transitive |
| Text.SortStrings | pixel_arts.py:7 | sorted() returns the same strings in ascending order |
| Matrices.MaxLength | static/js/Matrix.js:3-6 | The width is at least every row's length and is one of them (0 with no rows) |
| Matrices.Padded | static/js/Matrix.js:10-13 | A stored row has exactly width positions, holding the input's values and undefined past its end |
| Matrices.FromRows | static/js/Matrix.js:2-15 | The constructor's height is the number of rows, its width the longest row, and each cell the input value or undefined |
| Matrices.FromRowsKeepsRows | static/js/Matrix.js:2-15 | Building a matrix from equal-length rows and reading the rows back gives the rows |
| Matrices.MakeFilled | static/js/Matrix.js:23-33 | makeFilled fails with RangeError on an invalid array length; otherwise cell (x, y) is fill(x, y) or fill, and no rows are made for height ≤ 0 |
| Matrices.Get | static/js/Matrix.js:88-90 | get on a row that does not exist throws TypeError; past the width it gives undefined, unless set wrote there |
| Matrices.Set | static/js/Matrix.js:96-98 | set on a row that does not exist throws TypeError; otherwise the shape is unchanged |
| Matrices.GetAfterSet | static/js/Matrix.js:88-98 | After set(x, y, v), get(x, y) is v and every other get is unchanged |
| Matrices.Count | static/js/Matrix.js:39-57 | count is the number of cells, in row-major order, that equal the argument or satisfy it, at most width·height |
| Matrices.CountInZero | static/js/Matrix.js:39-57 | A count is zero exactly when no cell matches |
| Matrices.IndexOf | static/js/Matrix.js:104-113 | indexOf returns the first match in row-major order, and undefined exactly when nothing matches |
| Matrices.NoMatchCountsZero | static/js/Matrix.js:39-113 | indexOf finds nothing exactly when count of that value is 0 |
| Matrices.ToString | static/js/Matrix.js:62-81 | toString's loops build `[\n`, one `  [cells]` per row with `,` after all but the last and a newline, then `]` |
| Matrices.PrintRow | static/js/Matrix.js:65-75 | A row is `  [` + cells joined by ", " (strings quoted) + `]` |
| PartsPuzzle.CellInit | docs/static/js/30parts-puzzle.js:62-69 | cellInit stores x + 5y at (x, y): the solved permutation of 0..29 |
| PartsPuzzle.Swap | docs/static/js/30parts-puzzle.js:75-79 | swapCell exchanges the two cells, leaves the others and keeps the multiset |
| PartsPuzzle.SwapTwice | docs/static/js/30parts-puzzle.js:75-79 | Swapping twice restores the board |
| PartsPuzzle.Locate | static/js/Matrix.js:104-113 | indexOf(0) on the board gives the first position of the value, None exactly when absent |
| PartsPuzzle.KeyDirection | docs/static/js/30parts-puzzle.js:189-203 | w/a/d/s in either case map to up/left/right/down and nothing else moves |
| PartsPuzzle.AllArrows | docs/static/js/30parts-puzzle.js:47-51 | setArrowDisabled sets all four arrows alike |
| PartsPuzzle.Neighbour | docs/static/js/30parts-puzzle.js:71-73 | A neighbour exists exactly when the moved coordinates are inner, and it is that position |
| PartsPuzzle.NeighbourOpposite | docs/static/js/30parts-puzzle.js:81-112 | Moving there and back in the opposite direction returns to the start |
| PartsPuzzle.ArrowsAt | docs/static/js/30parts-puzzle.js:54-60 | An arrow is disabled exactly when the blank has no neighbour that way |
| PartsPuzzle.Blank | docs/static/js/30parts-puzzle.js:55 | On a permutation, tile 0 is at exactly one position |
| PartsPuzzle.CheckArrows | docs/static/js/30parts-puzzle.js:54-60 | checkArrowEnable throws when no 0 is on the board; on a permutation it sets the arrows of the blank |
| PartsPuzzle.Slide | docs/static/js/30parts-puzzle.js:83-86 | A slide keeps the multiset of tiles |
| PartsPuzzle.Move | docs/static/js/30parts-puzzle.js:81-112 | A move before the start changes nothing; after it, it fails only when no 0 is on the board |
| PartsPuzzle.MoveStep | docs/static/js/30parts-puzzle.js:81-112 | A started move swaps the blank with its inner neighbour or leaves the board at an edge, keeps a permutation, changes only board and arrows, and sets the arrows for the new blank |
| PartsPuzzle.MoveUndo | docs/static/js/30parts-puzzle.js:81-112 | A move followed by the opposite move restores the board |
| PartsPuzzle.Reset | docs/static/js/30parts-puzzle.js:166-174 | Reset (when enabled) stops the game, restores the solved board and disables the arrows |
| PartsPuzzle.Update | docs/static/js/30parts-puzzle.js:224-245 | A started game whose board is solved ends: started false, ended true, save enabled, arrows disabled; otherwise nothing changes |
| PartsPuzzle.WinCheck | docs/static/js/30parts-puzzle.js:225-236 | The nested loop with early breaks reports true exactly when every position holds its own tile |
| PartsPuzzle.Shuffle | docs/static/js/30parts-puzzle.js:148-158 | Every position gets a distinct value of 0..29 other than itself; a completed shuffle is that permutation, and it gets stuck only when 29 is left for position 29 |
| PartsPuzzle.Remove | docs/static/js/30parts-puzzle.js:154 | splice(index, 1) removes exactly that element |
| PartsPuzzle.ShuffleStep | docs/static/js/30parts-puzzle.js:151-155 | Placing an acceptable value keeps the shuffle invariant |
| PartsPuzzle.ShuffledUnsolved | docs/static/js/30parts-puzzle.js:152 | A fixed-point-free board is not solved |
| PartsPuzzle.Start | docs/static/js/30parts-puzzle.js:145-164 | Start (when enabled) puts a fixed-point-free, unsolved permutation on the board, starts the game and sets the arrows for its blank |
| PartsPuzzle.MoveKeepsReachable | docs/static/js/30parts-puzzle.js:81-112 | From any page state the handlers can reach, a move succeeds and stays in such a state |
| PartsPuzzle.ResetKeepsReachable | docs/static/js/30parts-puzzle.js:166-174 | Reset keeps the page in a reachable state |
| PartsPuzzle.UpdateKeepsReachable | docs/static/js/30parts-puzzle.js:224-245 | The win check keeps the page in a reachable state |
| EggLottery.NamesDistinct | static/js/egg-lottery.js:1 | The object names are distinct, so `===` on names is equality of objects |
| EggLottery.InitBoard | static/js/egg-lottery.js:11-18 | initBoard puts an egg in all 100 cells |
| EggLottery.Count | static/js/egg-lottery.js:25-35 | count is the number of cells holding the value, at most 100 |
| EggLottery.Spawn | static/js/egg-lottery.js:37-44 | A hatch never gives an egg |
| EggLottery.SpawnCovers | static/js/egg-lottery.js:37-44 | Every non-egg object is the hatch of some random number in [0, 1) |
| EggLottery.Break | static/js/egg-lottery.js:59-63 | Break (when enabled) starts breaking from cell 0 and disables itself |
| EggLottery.Reset | static/js/egg-lottery.js:65-69 | Reset stops breaking, refills the eggs and enables Break |
| EggLottery.StepWritesNextCell | static/js/egg-lottery.js:93-100 | While breaking below 100, a frame hatches cell (broken / 10, broken % 10) and increments broken, leaving every other cell; otherwise nothing changes |
| EggLottery.StepKeepsReachable | static/js/egg-lottery.js:93-100 | Frames keep the invariant that exactly the first `broken` cells have hatched |
| EggLottery.BreakKeepsReachable | static/js/egg-lottery.js:59-63 | Break keeps the invariant |
| EggLottery.ResetKeepsReachable | static/js/egg-lottery.js:65-69 | Reset keeps the invariant |
| EggLottery.CountsAddUp | static/js/egg-lottery.js:25-100 | The egg count and the five hatched counts add up to the board size |
| EggLottery.EggsLeft | static/js/egg-lottery.js:59-100 | In a reachable state the eggs number 100 − broken and the five hatched counts add up to broken |
| EggLottery.FilterGivesSpawned | static/js/egg-lottery.js:73-74 | Filtering "egg" out of the object names leaves the five hatched objects in order |
| EggLottery.Save | static/js/egg-lottery.js:71-76 | The file name is `egg-lottery-` + the five counts joined by "-" + `.png` |
| EggLottery.CountEach | static/js/egg-lottery.js:75 | One count per name, each that name's count on the board |
| EggLottery.FileNameReadsBack | static/js/egg-lottery.js:71-76 | The file name splits back into the five hatched counts |
| Treasures.Keys | scripts/pikmin2_treasures.py:7-23 | The fifteen keys in declaration order |
| Treasures.KeysDistinct | scripts/pikmin2_treasures.py:7-23 | The fifteen keys are distinct |
| Treasures.Header | scripts/pikmin2_treasures.py:34-41 | The header is the fifteen column titles in declaration order |
| Treasures.TextCell | scripts/pikmin2_treasures.py:58-63 | A present key shows str(value); a missing one shows `---` |
| Treasures.Row | scripts/pikmin2_treasures.py:45-64 | A record without imagePath raises KeyError; otherwise a row of fifteen cells: the picture, then the text cells in key order |
| Treasures.Generate | scripts/pikmin2_treasures.py:6-69 | The table succeeds exactly when every record has an image path; it has the header and one row per record in input order |
| Treasures.BodyCell | scripts/pikmin2_treasures.py:58-63 | Each text cell of a generated table shows the record's value, or `---` when the key is missing |
| Treasures.GenerateAppend | scripts/pikmin2_treasures.py:44-65 | The rows of a longer input begin with the rows of its prefix |
| PixelArts.Stem | pixel_arts.py:10 | A stem is a prefix of the file name |
| PixelArts.StemOfSuffixed | pixel_arts.py:10 | The stem of `<stem>.<ext>` is `<stem>` |
| PixelArts.ParseStem | pixel_arts.py:10-12 | Unpacking fails with ValueError unless the stem has one '_'; a size without 'x' raises IndexError; a parsed stem is `name_size` |
| PixelArts.ParseStemRoundTrip | pixel_arts.py:10-12 | `name_WxH` parses to that name, width and height |
| PixelArts.UnpackingNeedsOneUnderscore | pixel_arts.py:10 | A stem with no '_' or several fails the unpacking with ValueError |
| PixelArts.MissingHeight | pixel_arts.py:11-12 | `name_W` reads the width and then raises IndexError |
| PixelArts.LinkOf | pixel_arts.py:13-27 | href and src are the same URL of `<stem>.png`, and alt, width and height come from the parsed stem |
| PixelArts.Generate | pixel_arts.py:6-31 | One link per file, in sorted order; it fails exactly when some file's stem does not parse, with that file's error |

## Left out

- Formatters: `get_percentage_str` and `get_fraction_str` (pikmin2_cave_surveys.py:144-159) rely on float `log10` and `%.4g`. Their results are the opaque cells `Percentage(p)` and `Fraction(p)`. Only the 0 ≤ p ≤ 1 assertion of `get_prob_tuple` is kept.
- Probabilities: these are exact `real` values, not floats. The binomial mixture and the convolution are the exact sums, with no rounding. The claim that the mixture's probabilities sum to 1 is not stated: for CH28 the egg chances do not sum to 1, so it does not hold there.
- RowspanTable.RenderedCell: the rowspan is the weight as a number. The source prints `str()` of a float weight, such as `3.0`.
- Markup and YAML:
  - Markup is kept as rows of cells and parts. `BeautifulSoup` tags, `prettify`, `Markup`, and the `hr` and `br` separators are left out.
  - `yaml.safe_load` of the survey data and of the trial lines is left out: the model starts from the decoded records.
  - Re-reading a key with `yaml.safe_load` is the `Loader` parameter. The canonical reader `SurveyKeys.ParseKey` is one such loader, and it reads back every key the counter writes. The data may hold other YAML values (floats, lists); the model covers only integers, strings and booleans.
- ConcatTrials.ConcatOutput: does not model `json.dumps` escaping. Keys are written verbatim between quotes, as `json.dumps` does for the counter's keys. Keys holding quotes, backslashes or non-ASCII characters would be escaped by `json.dumps`; the model does not escape them.
- `flask.url_for` is the `staticUrl` parameter.
- `server.py` and `freeze.py` are left out. They are web-server routing and static export.
- concat_trials.py input: the `input()` loop (lines 5-13) becomes the list of trials.
- pixel_arts.py file listing: `Path.iterdir` and `is_file` become the list of file names. Paths in one directory sort as their names do.
- CaveGenEdited.java plumbing:
  - The cave generator's own steps (`caveGenInit`, `caveGenStep`, `caveGenEnd`) are the `generate` parameter, which maps a step to the placed layout.
  - The `System.out` diagnostics of some branches are left out.
  - HashMap iteration order is the `keys` parameter of the serialisation. `EntryOrder` shows that some order exists.
- Text.JavaHex08: Java's `int` is modelled by reading the value modulo 2^32. Seeds are assumed to fit in 32 bits, as Java's fields do.
- Text.ParseInt: Python's `int()` is modelled as an optional sign ('-' or '+') followed by ASCII decimal digits. Python also accepts surrounding whitespace, '_' between digits and non-ASCII decimal digits such as full-width ones; those strings read as a ValueError here. The callers are CaveReport.DisplayName, PixelArts.ParseStem and the key reader SurveyKeys.ParseKey.
- CaveReport.DisplayName: a stage name such as `CH2- 2` or `CH2-0_2` raises ValueError here, while Python shows ` (地下2階)`. This follows from the narrower `int()` above.
- PixelArts.ParseStem: a size such as `16x 16` or `1_6x16` raises ValueError here, while Python reads it. This follows from the narrower `int()` above.
- CaveReport.MaxField: reads each key's field as a number as it goes, so the first key whose field is a word gives TypeError at once. Python's lazy `max` may instead first raise KeyError for a later key that lacks the field, or raise TypeError only when comparing or adding 1. Success, failure and the maximum agree; only the kind of error can differ, and only on keys the counter never writes. A Loader's `None` (YamlError) also stands for valid YAML that is not a mapping, where Python's subscript raises TypeError.
- CaveReport.Find: the survey data is a decoded dictionary, so each key occurs once. The model's entry list does not require distinct keys, and with a repeated key a lookup returns the first entry, while a YAML load keeps the last. The lemmas that need distinct keys (FindEntry, CountsUpToComplete) require them; the rest also cover entry lists that cannot arise from the data.
- Matrices.Value: a JavaScript number is a double, but a matrix cell holds an unbounded integer (`Num`). The model is exact only for integers of magnitude below 2^53. Above that, JavaScript merges neighbouring integers (2^53 + 1 == 2^53), and the model keeps them apart, so `count` and `indexOf` can differ there. Fractional numbers, NaN and infinities are not modelled. EggLottery.Spawn compares its random number with the exact reals 0.85, 0.9 and 0.95, where JavaScript compares doubles; the two can differ only at those boundaries.
- Matrices.ToString: numbers print in plain decimal. JavaScript agrees only for magnitudes below 10^21; from 10^21 up it prints exponent form such as `1e+21`.
- Matrices.PrintRow: a number cell prints as its decimal text, which matches JavaScript only for magnitudes below 10^21 (see Matrices.ToString).
- Matrices.LooseEquals: JavaScript `==` is modelled only for undefined, integers and strings. This includes string-to-number conversion for decimal integer text. Other value kinds and `Number()` corner cases (hex, whitespace, floats) are left out.
- Matrices.Set: writing past a row's width stores the value, but the row's `width` field does not grow, as in the source. Writing to a missing row is a TypeError. The shape of JavaScript sparse arrays beyond that is not modelled.
- Randomness:
  - `Math.random` is a parameter (`EggLottery.Spawn`, `EggLottery.Step`).
  - In the shuffle, `Math.random` is a nondeterministic choice among the acceptable values.
- PartsPuzzle.Shuffle: when only 29 is left for position 29, the page loops forever. The model returns `None` with the positions placed so far, instead of diverging.
- Time, drawing and file download:
  - `Stopwatch.js` and `getTime` (wall-clock time) are left out, and so is the puzzle's save-file name, which is built from that time.
  - Canvas drawing, image loading, `setInterval` and the jQuery `disabled` properties are left out. The disabled flags are fields of the page state instead.
  - The data URL of the saved image is left out.
