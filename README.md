# California infectious-disease dashboard: filtering and aggregation core

This project models the data logic of the dashboard controller `AppCtrl` in
`app/application.js`. The controller loads a table of disease records. Each row
has `Disease`, `Year`, `County`, `Sex`, `Count` and `CI.upper`. From this table the
controller:

- builds the list of distinct diseases, with the first as the default selection (`_setDiseaseList`);
- offers case-insensitive prefix completion over that list (`querySearch` / `createFilterFor`);
- keeps the rows of the selected disease and year (`filter` / `_condition`);
- sums `Count` over the male and the female rows and sizes the bar chart by the larger sum
  (`_distributionFilterBySex`);
- colours each county of the map by the `CI.upper` of its first remaining row (the `fill` callback in `filter`).

Modules:

- `Text`: ASCII `toLowerCase`, `indexOf`, and JavaScript's `<` on strings (lexicographic on characters),
  with its order laws.
- `Records`: the row datatype, `Option` for `undefined`, and `Keep` (the `Array.prototype.filter` the
  controller relies on), with the sequence vocabulary `Subseq`, `NoDup` and `FirstIndex`.
- `Search`: `createFilterFor` and the synchronous `querySearch`.
- `DiseaseList`: the list `_setDiseaseList` builds, as a function of the rows, with its properties.
- `Aggregation`: `_condition`, the filtered rows, and the sex sums with their properties.
- `Colouring`: the threshold buckets on `CI.upper`, the first-match fill of a county, and the callback loop.
- `Controller`: the class `AppCtrl`. Its fields are the controller's `self.*` state. Its methods are the
  state-changing operations, each proved against the functions above.

Three points of the code's behaviour that the model keeps as written:

- Years are not a numeric range. `_condition` compares the `Year` text with one selected year text by
  strict equality (app/application.js:253). `filter` is always called with `'2005'` (app/application.js:61, 91).
- `CI.upper` thresholds are not numeric. The code compares the `CI.upper` text with `'0.898'`, `'2.801'`
  and `'5.801'` as strings (app/application.js:222-226). `Colouring.TextualComparison` shows the effect:
  an upper bound of `"10.2"` is below `"2.801"` in string order, so it gets the second colour, not the last.
- There is no county selection, per-year series or "selected county" colour in this controller. The sex
  sums run over all filtered rows, whatever their county.

## Model

| member | source | states |
|---|---|---|
| `Text.LowerChar` | app/application.js:80 | an ASCII capital maps to the small letter 32 code points above; every other character is unchanged |
| `Text.Lower` | app/application.js:80-82 | `toLowerCase` keeps the length and lower-cases each character in place |
| `Text.IndexFrom` | app/application.js:82 | `indexOf` from a start position gives -1 exactly when the pattern occurs nowhere from there, and otherwise gives an occurrence with none before it |
| `Text.IndexOf` | app/application.js:82 | `indexOf` gives -1 exactly when the pattern occurs nowhere, and otherwise the first position where it occurs |
| `Text.IndexOfZeroIffPrefix` | app/application.js:82 | `s.indexOf(sub) === 0` holds if and only if `sub` is a prefix of `s` |
| `Text.LexLess` | app/application.js:222-226 | JavaScript's string `<` compares character by character; a proper prefix is below the longer string (the order laws are the four lemmas below) |
| `Text.LexLessIrreflexive` | app/application.js:222-226 | no string is below itself under JavaScript's string `<` |
| `Text.LexLessTransitive` | app/application.js:222-226 | JavaScript's string `<` is transitive |
| `Text.LexLessTotal` | app/application.js:222-226 | of two different strings, one is below the other |
| `Text.LexLessAsymmetric` | app/application.js:222-226 | two strings are never below each other both ways |
| `Records.Keep` | app/application.js:211-214 | `Array.filter` keeps exactly the elements that pass, in their order and with their multiplicity, and only elements of the input |
| `Records.SubseqNoDup` | app/application.js:69 | filtering a duplicate-free list gives a duplicate-free list |
| `Search.CreateFilterFor` | app/application.js:79-84 | `filterFn(disease)` holds if and only if the lower-cased query is a prefix of the lower-cased disease |
| `Search.QuerySearch` | app/application.js:68-69 | an absent or empty query returns the whole list; any other query returns exactly the diseases it case-insensitively prefixes, in list order and with their multiplicity |
| `Search.QuerySearchNoDup` | app/application.js:69 | searching a duplicate-free disease list gives a duplicate-free result |
| `Search.QuerySearchNarrows` | app/application.js:79-83 | a disease offered for a query is offered for every non-empty prefix of that query |
| `DiseaseList.AddDiseases` | app/application.js:96-99 | the entries already in the list keep their places, and each row adds at most one entry |
| `DiseaseList.AddDiseasesMembers` | app/application.js:96-99 | the list holds exactly its earlier entries and the `Disease` of every row |
| `DiseaseList.AddDiseasesNoDup` | app/application.js:97-98 | a list without duplicates stays without duplicates |
| `DiseaseList.AddDiseasesFirstOccurrenceOrder` | app/application.js:96-99 | built from an empty list, the diseases are ordered by their first row |
| `DiseaseList.AddDiseasesHead` | app/application.js:100 | built from an empty list over some rows, the first entry is the first row's disease |
| `Controller.InitialDiseaseList` | app/application.js:95-100 | from the empty list of line 36: no duplicates, exactly the data's diseases, first-occurrence order, empty only for empty data, and the first row's disease first |
| `Aggregation.Condition` | app/application.js:252-254 | with `diseaseSelected` undefined no row passes; a row that passes has exactly the selected disease and the selected `Year` text |
| `Aggregation.FilterRecords` | app/application.js:208-214 | the filtered rows are the rows of the selected disease whose `Year` text equals the selected year, in data order and multiplicity; with no disease selected nothing passes |
| `Aggregation.SexSum` | app/application.js:241-247 | the accumulated sum for one `Sex` never exceeds the total `Count` of the rows (with `SexSumIsTotalOfSex`: it is the total of exactly that sex's rows) |
| `Aggregation.SexSumAppend` | app/application.js:241-247 | the running sum over the rows adds up stretch by stretch |
| `Aggregation.SexSumIsTotalOfSex` | app/application.js:242-246 | the sum for a sex is the total `Count` of exactly the rows of that sex |
| `Aggregation.SexSumOnlySeesItsSex` | app/application.js:242-246 | rows of any other `Sex` (such as `Total`) do not change the sum |
| `Aggregation.MaleFemaleWithinTotal` | app/application.js:241-247 | the male and female sums together never exceed the total `Count` of the rows |
| `Aggregation.Larger` | app/application.js:248 | `barSize` is at least each sum and equal to one of them |
| `Colouring.Bucket` | app/application.js:222-230 | one of four buckets; with `BucketIsThresholdsReached` it is the number of thresholds the value is not below, and with `BucketMonotone` it never decreases as the value grows in string order |
| `Colouring.Colour` | app/application.js:222-230 | the colour is one of the four; `#cecece` exactly when the value is below `'0.898'`, `#2db7e2` exactly when it is below none of the three thresholds |
| `Colouring.ThresholdsIncreasing` | app/application.js:222-226 | `'0.898' < '2.801' < '5.801'` in string order |
| `Colouring.BucketIsThresholdsReached` | app/application.js:222-230 | a value's bucket is the number of thresholds it is not below in string order |
| `Colouring.BucketMonotone` | app/application.js:222-230 | a value that is not smaller in string order never gets an earlier bucket |
| `Colouring.TextualComparison` | app/application.js:222-226 | `"10.2"` gets the second colour `#ffcc5c`, because the comparison is on text |
| `Colouring.CountyFill` | app/application.js:220-233 | a county's fill, when there is one, is a palette colour taken from a filtered row of that county (with `CountyFillIsFirstMatch` and `CountyFillNone`: the first such row, and none exactly when no row names it) |
| `Colouring.CountyFillIsFirstMatch` | app/application.js:220-231 | a county that some filtered row names gets the colour of the first such row |
| `Colouring.CountyFillNone` | app/application.js:220-233 | a county has no colour (`undefined`) if and only if no filtered row names it |
| `Colouring.FillColour` | app/application.js:219-233 | the indexed loop with early return gives the first-match colour of the county |
| `Colouring.PaintCounties` | app/application.js:218-219 | every county of the map gets its first-match colour |
| `Controller.AppCtrl.constructor` | app/application.js:34-43 | a fresh controller has no data, an empty disease list and no selection |
| `Controller.AppCtrl.SetDiseaseList` | app/application.js:95-102 | the list becomes the rows' diseases appended in first-occurrence order; the selection is its first entry or undefined; no duplicates, and the selection is in the list |
| `Controller.AppCtrl.DistributionFilterBySex` | app/application.js:236-250 | the male and female bins hold the sums over the rows of that sex, and `barSize` is the larger of the two |
| `Controller.AppCtrl.Filter` | app/application.js:208-234 | the bins and `barSize` are those of the filtered rows, and each county gets its first-match colour |
| `Controller.AppCtrl.OnInit` | app/application.js:52-66 | after loading: the data is stored, the disease list is built, and the bins and `barSize` are those of the rows for `'2005'`; no county is painted, because the map's county paths are added later, in the topology callback (app/application.js:120-134) |
| `Controller.AppCtrl.SelectedItemChange` | app/application.js:90-93 | choosing a disease filters again for `'2005'`: the bins and `barSize` are those of the filtered rows, and each drawn county gets its first-match colour |

## Left out

- The `simulateQuery` branch of `querySearch` (app/application.js:70-73). It resolves a promise after a random delay, which is asynchronous and random.
- All D3 and topojson rendering in `_buildDistributionInMap` and `_timeline` (app/application.js:104-202). This includes the projection, tooltips and the slider. The counties of an already-drawn map enter `Filter` and `SelectedItemChange` as a list of names, and the colours they are painted with are returned instead of drawn.
- The CSV and JSON fetches and the `crossfilter` call (app/application.js:54-57, 120). The rows enter `OnInit` as a parameter, and the load-failure path is not modelled.
- `$log`, `$scope.$apply`, `console.log`, the empty `_buildDistributionChartAboutSex`, `searchTextChange` and the Angular wiring (app/application.js:3-12, 46-50, 86-88, 101, 204-206). They have no effect on the modelled state.
- `Number()` parsing of `Count` (app/application.js:243, 245). Counts are already-parsed natural numbers, so `NaN` and floating point do not arise.
- `Controller.AppCtrl.constructor`: `self.infectiousDiseaseData`, `self.distributionBySex` and `self.barSize` start `undefined` in the source. The model starts them as empty lists and 0. In the source a `filter` before the data has loaded would throw at app/application.js:211; the model's `Filter` then just finds no rows. Nothing calls `filter` before the load.
- `Text.Lower`: only ASCII letters are lower-cased. JavaScript's full Unicode case mapping, which can change a string's length, is not modelled.
- `Text.LexLess`: characters are compared by code point. JavaScript compares UTF-16 code units, and the two orders differ only for characters outside the Basic Multilingual Plane.
- `Controller.AppCtrl.SelectedItemChange`: the new `diseaseSelected` is written by Angular's data binding, which is not part of this model. The method reads whatever selection the controller holds.
- app/resource/loading-screen-service.js is a start/finish wrapper around an overlay widget, and app/module.js holds only theme configuration. Neither has logic to model.
