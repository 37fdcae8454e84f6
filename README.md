# Survey response analytics

This project models the analytics core of the classroom survey module, all of it in `app.js`. The core has five parts:

- **Response analyzer** (`analyzeResults`). It folds the stored response records into one entry per answer key. Each entry holds:
  - the key's current `type`;
  - every value seen for the key, in record order;
  - a frequency table of the stringified answers.
- **Histogram binner** (the numerical branch of `createChart`). It splits the range from the smallest to the largest value into 3 to 10 equal bins and counts the values in each.
- **Field selection screen**:
  - the keys that can be charted;
  - the label and type description shown for each key;
  - the checkboxes;
  - `selectAllFields` and `generateSelectedCharts`.
- **Chart orchestration**. The page state (`currentResults`, `currentPage`, `availableFields`, `activeCharts`) is a `Dashboard` class. Regenerating charts:
  - destroys every live chart first;
  - then creates one chart per selected key whose kind is known, in selection order;
  - changes nothing when no key is selected.

  A chart is a numbered id. A ghost set and a ghost log record which ids were destroyed and in what order charts were created and destroyed.
- **Results pager** (`displayResultsPage`):
  - ten records to a page;
  - numbered by their position in the whole list;
  - Previous, Next and page-number controls;
  - the newest-first sort applied when the records are loaded.

Modules, one per file:

| file | module | contents |
|---|---|---|
| `values.dfy` | `ResponseValues` | survey values, `String(v)`, response records |
| `analyzer.dfy` | `FieldAnalyzer` | the analysis table and `analyzeResults` |
| `binner.dfy` | `Binner` | bin count, bin ranges and bin counts |
| `selection.dfy` | `Selection` | eligible keys, field names, type descriptions, the checkbox list |
| `pager.dfy` | `ResultsPager` | paging arithmetic, page rendering data, the sort |
| `charts.dfy` | `ChartOrchestrator` | chart specs and the `Dashboard` state with its chart lifecycle |

Modelling choices:

- **Loops stay loops.** The source's loops become Dafny methods with loop invariants. Each method is proved equal to a recursive specification function: `AnalyzeResults` against `Analyze`, `BuildHistogram` against `HistogramOf`, `SelectedFields` against `CheckedKeys`. The properties are then lemmas about those functions.
- **Record data.** A record's `data` is a sequence of `(key, value)` pairs with distinct keys, in the order its keys are enumerated.
- **Counts keep insertion order.** A `counts` table is a key list in insertion order plus a map, because the pie chart's labels follow that order.
- **Number formatting is a parameter.** JavaScript's `String(number)` is passed in as the function parameter `fmt`.

When every value of a numerical field is the same, `binSize` is 0 and each value's index is `floor(0 / 0)`, which is NaN. `Math.min(NaN, binCount - 1)` is NaN too, and `bins[NaN]++` increments no bin. So every bin of such a histogram stays at 0. In the model, `BinIndex` returns `None` for this case.

## Model

| member | source | states |
|---|---|---|
| ResponseValues.Stringify | app.js:108-115 | `String(value)` and `String(item)`: a string as itself, a boolean as `true` or `false`, a number through the engine's formatting, an array as its elements' texts joined by commas with a null element as empty text, `null` as `null` and an object as `[object Object]` |
| ResponseValues.StringifyExamples | app.js:108-115 | `["red", null, true]` is counted as `red,,true`, the empty array as the empty text, and `null` and an object by their own spellings |
| ResponseValues.Get | app.js:102 | `data[key]` is present exactly when some pair carries the key, and it is that pair's value |
| ResponseValues.BooleanSharesKeyWithItsSpelling | app.js:108 | a boolean answer and the string spelling it stringify to the same counts key |
| FieldAnalyzer.Classify | app.js:106-118 | the type switch: a string or boolean makes the field categorical, a number numerical, an array multiple, and any other value leaves the type as it was |
| FieldAnalyzer.Counter.Bump | app.js:109 | `counts[s] = (counts[s] \|\| 0) + 1`: the count of `s` goes up by one and every other count is unchanged; distinct keys with positive counts are kept; a new key is appended to the key order |
| FieldAnalyzer.CountElements | app.js:114-117 | each count grows by the number of array elements whose text is that key; the key order only grows |
| FieldAnalyzer.AnalyzeResults | app.js:85-123 | the two nested loops build exactly the table `Analyze` specifies; empty input gives the empty table |
| FieldAnalyzer.AnalyzeRecord | app.js:93-119 | the loop over one record's keys builds the table `AddRecord` specifies, creating missing entries as `unknown` with no values and no counts |
| FieldAnalyzer.ObserveAnswer | app.js:102-118 | one answer is appended to `values`, sets the type by its shape, and is counted when it is a string, boolean or array |
| FieldAnalyzer.CountItems | app.js:114-117 | the loop over an array answer's elements counts each element's text |
| FieldAnalyzer.ObserveAllContents | app.js:103-117 | after a run of answers, `values` is the old values followed by the run; each count grows by the run's occurrences of its key; the counter stays well formed |
| FieldAnalyzer.ItemTexts | app.js:114-115 | `String(item)` for each element of an array answer, element by element |
| FieldAnalyzer.BumpKeys | app.js:108-109 | counting a text appends it to the counts key order exactly when it is not there yet |
| FieldAnalyzer.CountElementsKeys | app.js:114-117 | an array answer's new texts join the counts key order in element order, each once |
| FieldAnalyzer.ObserveKeys | app.js:106-118 | one answer extends the counts key order by its counted texts not seen before, in order; a number, null or object adds none |
| FieldAnalyzer.ObserveAllKeys | app.js:103-118 | over a run of answers, each text enters the counts key order where it is first counted |
| FieldAnalyzer.ObserveAllKind | app.js:106-118 | after a run of answers, the type is a function of the previous type and the answers alone |
| FieldAnalyzer.KindIsMostRecent | app.js:106-118 | the type is set by the latest string, boolean, number or array; it is unchanged when there was none |
| FieldAnalyzer.AddRecordField | app.js:93-103 | one record creates an entry for a key exactly when it has the key, then observes its value; entries for other keys are untouched |
| FieldAnalyzer.AddRecordConsistent | app.js:94-100 | one record keeps the table consistent: its keys are listed once each and every counter is well formed |
| FieldAnalyzer.AnalyzeConsistent | app.js:88-120 | the table built from any records is consistent |
| FieldAnalyzer.AnalyzeField | app.js:90-103 | a key has an entry exactly when some record has it, and that entry is the fold of its values in record order |
| FieldAnalyzer.ValuesOfNonEmpty | app.js:90-93 | a key has at least one value exactly when it occurs in some record's data |
| FieldAnalyzer.AnalyzeKeys | app.js:86-100 | no records give `{}`; otherwise the entries are exactly the keys of all records, each listed once |
| FieldAnalyzer.KeysOf | app.js:93 | the keys of one record's data, in enumeration order |
| FieldAnalyzer.KeepFirstAppend | app.js:96-100 | keeping first occurrences over two key lists in a row is keeping them over the first list, then over the second |
| FieldAnalyzer.KeepFirstOne | app.js:96-100 | a key is appended to the key order exactly when it is not already there |
| FieldAnalyzer.AddRecordOrder | app.js:93-100 | one record appends its keys not yet in the table, in the order it enumerates them |
| FieldAnalyzer.AnalyzeOrder | app.js:90-100 | the table's keys are in discovery order: each key once, where it first appears going through the records and their keys in order |
| FieldAnalyzer.KeySequenceExample | app.js:90-93 | two records with keys `a, b` and `c, a` enumerate `a, b, c, a` |
| FieldAnalyzer.KeepFirstExample | app.js:96-100 | keeping first occurrences of `a, b, c, a` gives `a, b, c` |
| FieldAnalyzer.FirstSeenExample | app.js:90-100 | those two records give the table keys `a, b, c` |
| FieldAnalyzer.FieldContents | app.js:102-117 | an entry's `values` are its key's answers in record order; `counts[s]` is the number of string and boolean answers plus array elements whose text is `s` |
| FieldAnalyzer.FieldCountOrder | app.js:86-119 | a key's `counts` lists each counted text once, in the order the texts are first counted going through the records, their answers and each array's elements |
| FieldAnalyzer.FieldKind | app.js:96-118 | an entry's type is that of its most recent string, boolean, number or array answer, and `unknown` when it had none |
| FieldAnalyzer.ContributionFacts | app.js:106-117 | numbers, nulls and objects add nothing to `counts`; `true` and `"true"` count under one key |
| FieldAnalyzer.CountsPersist | app.js:106-117 | counts and counted keys are never lost when later answers change the type |
| FieldAnalyzer.MoodValues | app.js:90-103 | the three `mood` records give the values happy, sad, happy, in record order |
| FieldAnalyzer.MoodOccurrences | app.js:106-109 | happy occurs twice, sad once, and no other text occurs |
| FieldAnalyzer.MoodSummary | app.js:106-109 | any records whose `mood` answers are happy, sad, happy give a categorical entry counting happy 2 and sad 1 |
| FieldAnalyzer.MoodExample | app.js:85-123 | the three-record `mood` survey analyses to a categorical field with happy 2 and sad 1 |
| Binner.CeilSqrtIsLeastRoot | app.js:180 | the integer `Math.ceil(Math.sqrt(n))` is the least `r` with `r * r >= n` |
| Binner.BinCount | app.js:180 | `binCount` always lies in [3, 10] |
| Binner.BinCountIsClampedRoot | app.js:180 | 3 bins exactly for up to 9 values; 10 bins exactly for more than 81; in between, the rounded-up square root |
| Binner.TenValuesGiveFourBins | app.js:180 | ten values give four bins |
| Binner.SeqMin | app.js:177 | `Math.min(...values)` is one of the values and no value is smaller |
| Binner.SeqMax | app.js:178 | `Math.max(...values)` is one of the values and no value is larger |
| Binner.ScaleIsProduct | app.js:187-188 | adding the bin width `i` times is `i * binSize` |
| Binner.Labels | app.js:186-191 | there are `k` labels and label `i` is the range of bin `i` |
| Binner.BuildHistogram | app.js:174-196 | the labelling loop and the counting loop compute exactly the labels and bins `HistogramOf` specifies |
| Binner.HistogramShape | app.js:180-191 | labels and bins both have `binCount` entries, between 3 and 10 |
| Binner.LabelsEqualWidth | app.js:187-188 | bin `i` runs from `min + i * binSize` to `min + (i + 1) * binSize` |
| Binner.LabelsSpanRange | app.js:177-188 | the first bin starts at the minimum and the last bin ends at the maximum |
| Binner.BinHoldsValue | app.js:194 | when the values are not all equal, every value gets an index below `binCount`; its bin starts at or below it and, except for the last bin, ends above it |
| Binner.FloorBounds | app.js:194 | `floor(d / binSize)` whole bin widths fit at or below `d`, and one more does not |
| Binner.MaximumInLastBin | app.js:194 | the maximum lands in the last bin, not one past it |
| Binner.BinIndex | app.js:194 | `Math.min(Math.floor((value - min) / binSize), binCount - 1)`: no index (NaN) exactly when the bin width is 0, and otherwise an index below `binCount` |
| Binner.TallySum | app.js:193-196 | with a non-zero bin width, every value is counted once, so the bins sum to the number of values |
| Binner.TallyZeroWidth | app.js:181-196 | with a zero bin width, no bin is incremented |
| Binner.HistogramCounts | app.js:177-196 | values not all equal: bins sum to the number of values; all values equal: every bin is 0 |
| Binner.OneToTenRange | app.js:177-178 | the smallest of the values 1 to 10 is 1 and the largest is 10 |
| Binner.OneToTenExample | app.js:177-194 | the values 1 to 10 give 4 bins of width 2.25 starting at 1, and 10 goes into bin 3 |
| Binner.OneToTenLowIndices | app.js:193-194 | with minimum 1, width 2.25 and 4 bins, the values 1 to 3 go into bin 0, and 4 and 5 into bin 1 |
| Binner.OneToTenHighIndices | app.js:193-194 | with minimum 1, width 2.25 and 4 bins, the values 6 and 7 go into bin 2, and 8 to 10 into the last bin, 3 (10 through the clamp) |
| Binner.TallyStep | app.js:192-195 | counting one more value adds one to its bin and leaves the others |
| Binner.OneToTenBins | app.js:177-196 | the histogram of the values 1 to 10 has the bin counts 3, 2, 2, 3 |
| Selection.KeepChartable | app.js:242 | filtering keeps exactly the keys with an entry whose type is not `unknown` |
| Selection.EligibleKeys | app.js:242 | `fieldKeys` are exactly the analysed keys whose type is not `unknown`, and each of them is chartable |
| Selection.KeepChartableInOrder | app.js:242 | the filter keeps the keys in their original order |
| Selection.EligibleKeysFacts | app.js:241-242 | the offered keys are the known-kind keys, in the order of the analysis table |
| Selection.EligibleKeysInDiscoveryOrder | app.js:241-242 | after analysing records, the offered keys are the chartable keys in the order they are first met in the records |
| Selection.SpaceBeforeCapitals | app.js:266 | `replace(/([A-Z])/g, ' $1')`: the key with a space inserted before every capital letter A-Z |
| Selection.FieldName | app.js:266 | `fieldName`: the spaced key with its first character upper-cased |
| Selection.CapitalizeFirst | app.js:266 | `replace(/^./, toUpperCase)` upper-cases only the first character, and leaves it alone when it is a line terminator |
| Selection.SpacingLength | app.js:266 | spacing adds one character per capital letter |
| Selection.SpacingRoundTrip | app.js:266 | removing the space before each capital gives the key back |
| Selection.DropLast | app.js:266 | removing spaces undoes the spacing of the last character |
| Selection.CapitalsArePreceded | app.js:266 | every capital in the spaced key has a space right before it |
| Selection.SpacingAppend | app.js:266 | the replacement distributes over concatenation |
| Selection.SpacingNoCapitals | app.js:266 | a key without capitals is unchanged by spacing |
| Selection.FieldNameCamelCase | app.js:266 | `favoriteColor` is shown as `Favorite Color` |
| Selection.FieldNameLeadingCapital | app.js:266 | `Age` is shown as ` Age`; the empty key is shown empty |
| Selection.Describe | app.js:270-284 | a categorical or multiple-choice field reports the number of distinct counted texts; a numerical field reports a minimum and maximum that are among its values and bound them all; an unknown field reports nothing |
| Selection.DistinctCount | app.js:272-281 | `Object.keys(counts).length` is the number of distinct counted texts |
| Selection.FieldRows | app.js:264-291 | one row per offered key, in order: the key, its label, its description and its number of responses |
| Selection.CheckedKeys | app.js:316-320 | the selection has no more keys than there are checkboxes |
| Selection.CheckedKeysMembership | app.js:316-320 | a key is selected exactly when a checkbox carrying it is ticked |
| Selection.CheckedKeysInOrder | app.js:316-320 | the selected keys keep the order of the checkboxes |
| Selection.CheckedKeysAllOrNone | app.js:307-320 | with every box ticked, the selection is all keys in order; with none ticked, it is empty |
| Selection.FieldSelection.constructor | app.js:288 | one checkbox per offered key, each ticked |
| Selection.FieldSelection.SelectAllFields | app.js:307-312 | every checkbox gets the given state and the keys are unchanged |
| Selection.FieldSelection.Toggle | app.js:288 | clicking a checkbox flips that one box and nothing else |
| Selection.FieldSelection.SelectedFields | app.js:314-320 | the loop collects exactly the ticked keys, in page order |
| ResultsPager.TotalPages | app.js:367 | `Math.ceil(n / 10)`: the fewest pages of ten that hold `n` records, 0 for none |
| ResultsPager.StartIndex | app.js:368 | `startIndex = (page - 1) * 10`, the position of a page's first record |
| ResultsPager.EndIndex | app.js:369 | `Math.min(startIndex + 10, n)`: at most ten past the start and at most `n`, and equal to one of the two |
| ResultsPager.PageItems | app.js:368-370 | a page holds at most ten records, item `i` being record `(page - 1) * 10 + i`; a page in range is non-empty and ends at `min(page * 10, n)`; a page past the last is empty |
| ResultsPager.GlobalIndex | app.js:391 | the number shown for an item is at least 1 |
| ResultsPager.GlobalIndexNamesRecord | app.js:390-391 | the item shown as number `g` is record `g - 1` of the whole list |
| ResultsPager.PagesUpToPrefix | app.js:367-370 | the first `m` pages together are the first `min(10 m, n)` records |
| ResultsPager.PagesPartition | app.js:367-370 | pages 1 to `totalPages` concatenate to exactly the records, with no gap or overlap; there are no pages exactly when there are no records |
| ResultsPager.TwentyFiveRecords | app.js:367-370 | 25 records make 3 pages; page 1 is records 0-9 and page 3 is records 20-24 |
| ResultsPager.PageControls | app.js:407-429 | the controls are drawn exactly when there are more than ten records; on a page in range, Previous shows exactly after page 1 and Next exactly before the last page |
| ResultsPager.PageNumberButtons | app.js:417-423 | one button per page, numbered from 1; only the current page's button is active; there is an active button exactly when the page is in range |
| ResultsPager.DisplayResultsPage | app.js:365-437 | the rendered page: the charts button exactly when there are records, the shown range, each item with its global number and record, and the controls and buttons above |
| ResultsPager.SortNewestFirst | app.js:455 | after the sort, timestamps never increase along the array, and the array is a permutation of the input |
| ResultsPager.InsertNewest | app.js:455 | one insertion step extends the newest-first prefix by one element and keeps the contents |
| ResultsPager.SinkStep | app.js:455 | swapping the sinking record with an older one before it keeps every other pair in order |
| ResultsPager.SinkDone | app.js:455 | once the record before it is at least as new, the prefix is newest first |
| ChartOrchestrator.TalliesOf | app.js:135 | `Object.values(counts)` is the count under each key, in key order |
| ChartOrchestrator.PieColors | app.js:136-147 | the slice colours are the first `min(8, n)` palette entries |
| ChartOrchestrator.ChartFor | app.js:132-196 | categorical and multiple-choice fields get a pie, numerical fields a bar chart. A pie's labels are the counts keys in order, with each slice holding its key's count. A bar chart has `binCount` bins, and its ranges and frequencies are the field's histogram |
| ChartOrchestrator.PieSlicesCountAnswers | app.js:134-135 | each slice of a field's pie is the number of answers with that text, and is at least 1 |
| ChartOrchestrator.PieSlicesInFirstCountedOrder | app.js:132-134 | a pie's labels, `Object.keys(counts)`, are the field's counted texts in the order they were first counted, each once |
| ChartOrchestrator.ChartsFor | app.js:356-361 | every chart made is for a selected key that has an entry of known kind, and it is that entry's chart |
| ChartOrchestrator.OfferedKeysAllCharted | app.js:356-361 | when every selected key is chartable, there is one chart per key, in selection order |
| ChartOrchestrator.ChartsForLast | app.js:356-361 | a chartable last key adds its chart after the others |
| ChartOrchestrator.ChartsForStep | app.js:356-361 | each further selected key adds its chart, or nothing when it is skipped |
| ChartOrchestrator.TeardownLeavesNothingLive | app.js:332-333 | destroying every live chart keeps the bookkeeping sound, and afterwards the destroyed ids are exactly the ids ever issued |
| ChartOrchestrator.DestroyEach | app.js:332 | the `forEach` destroys and logs each live chart in order |
| ChartOrchestrator.BuiltStep | app.js:172 | creating one more chart extends the live list, the drawn charts and the log by that chart |
| ChartOrchestrator.BuiltIsValid | app.js:355-362 | charts built on a torn-down dashboard are each live once, none has been destroyed, and none is leaked |
| ChartOrchestrator.Dashboard.constructor | app.js:14-19 | no results, page 1, an empty analysis and no charts |
| ChartOrchestrator.Dashboard.LoadResults | app.js:444-459 | the loaded records become the current results sorted newest first (a permutation of the input), the page is reset to 1, and page 1 is rendered as `DisplayResultsPage` renders it |
| ChartOrchestrator.Dashboard.GoToPage | app.js:439-442 | remembers the page and renders that page of the current results with every fact `DisplayResultsPage` promises: the charts button, the shown range, the entries, the controls and the page buttons |
| ChartOrchestrator.Dashboard.ShowFieldSelectionInterface | app.js:233-291 | with no records nothing is analysed or offered. Otherwise the analysis is stored and one ticked checkbox plus one row is offered per eligible key. Nothing is offered when no key is eligible |
| ChartOrchestrator.Dashboard.GenerateSelectedCharts | app.js:314-328 | with no ticked box nothing changes at all; otherwise every live chart was destroyed before one chart per chartable ticked key is created in order |
| ChartOrchestrator.Dashboard.GenerateChartsForFields | app.js:330-363 | teardown, then creation: the old live charts are destroyed and logged first; then the new charts get fresh consecutive ids |
| ChartOrchestrator.Dashboard.DestroyActiveCharts | app.js:332-333 | every live chart is destroyed, each destruction is logged in order, and the live list is emptied |
| ChartOrchestrator.Dashboard.CreateCharts | app.js:355-362 | one chart per selected key with a known-kind entry, in order, each live once, drawn with its spec and logged |
| ChartOrchestrator.Dashboard.CreateChart | app.js:125-231 | `new Chart` takes the next fresh id, draws the field's chart spec and pushes the id onto `activeCharts` |

## Left out

- Screen switching and HTML building: the markup, the "no data" and "no chartable fields" messages and the `alert` are not modelled. Only what is shown is kept: the rows, the controls and the buttons.
- Survey.js rendering, Edrys messaging and configuration parsing are foreign libraries and transport.
- Dexie storage and the classroom query are asynchronous I/O. `LoadResults` receives the queried records as an array, and load errors are not modelled.
- Chart.js drawing and its options are not modelled: the axis settings, the legend, the tooltip percentage text and the border colours. A chart is an id plus the labels, data and colours it is created with.
- Slice colours: a pie is given the colour array `colors.slice(0, labels.length)`, which has `min(8, n)` entries. How Chart.js colours the slices after the eighth from that array is not modelled.
- Chart-creation failures: `createChart` has no error handling, so an exception thrown by one `new Chart` would stop the remaining charts of that `forEach`. The model's chart creation cannot fail.
- The `setTimeout` before chart creation is scheduling. Chart creation simply follows teardown.
- Number formatting is not modelled:
  - `String(number)` is the caller-supplied `fmt`;
  - `toFixed(1)` in bin labels and tooltips is left out, so a label is the interval it names;
  - bin arithmetic is exact `real` arithmetic, not floating point;
  - `Math.sqrt` is an integer rounded-up square root.
- `Object.keys` lists integer-like keys first. The model keeps plain insertion order.
- Keys that collide with `Object.prototype` members are not modelled.
- `ToUpper` upper-cases ASCII letters only. Other letters are left unchanged.
- Mixed-type numerical fields are a precondition (`NumbersOnly`, `NumbersOnlyAll`): a field whose most recent kind-setting answer is a number may hold other answers (strings, booleans, arrays, `null` or objects) before or after that number, since `null` and objects do not change the type; for example the answers `5` and `null` make a numerical field whose `null` the source converts to 0. JavaScript's conversion of such values to numbers (in `Math.min`, `Math.max` and `value - min`) is not modelled. This affects `Describe`, `ChartFor`, `ShowFieldSelectionInterface` and `GenerateSelectedCharts`.
- Dates are integer timestamps. The sort is an insertion sort that meets the comparator's contract.
- ResultsPager.SortNewestFirst: stability, which `Array.prototype.sort` guarantees, is not stated.
- `currentResults` aliasing the sorted array: the model copies the array after sorting, which has the same effect.
- ResultsPager.DisplayResultsPage: the "Showing first-last" numbers are computed for every page. The source prints them only when there are records.
