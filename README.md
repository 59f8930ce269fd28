# A verified model of the data side of a Dash visualisation tool

The tool loads one uploaded table (CSV, Excel, JSON or GeoJSON) and then does the following:

- It cleans the table: normalises headers, parses dates, coerces numbers and adds coordinates.
- It classifies the columns into categories.
- It preselects columns to keep and derives the dropdown menus.
- It filters rows by a value and by years.
- It aggregates the data for maps, bar, pie, histogram, box and line charts.

This project models that data side in Dafny, module by module, following the Python files.

| module | file modelled |
|---|---|
| `HeaderNames` | `_norm_cols` of preprocessing/analysis_pipeline.py (character loop, `seen` set, `__k` suffix search) |
| `Preprocessing` | the rest of preprocessing/analysis_pipeline.py: date-name heuristic, numeric coercion, empty tokens, KKJ search, coordinate masks, step order |
| `Classifier` | preprocessing/column_classifier.py: the rule table, `match_category`, `categorize_columns` |
| `Helpers` | utils/helpers.py: `flatten_unique`, `make_options`, `typed_lists`, `extract_years` |
| `Menus` | callbacks/menus.py: every menu callback |
| `Transforms` | services/transforms.py: subsetting, value filter, year filter |
| `Charts` | callbacks/charts.py: its own filters, the three chart builders, `render_figures` |
| `Figures` | services/figures.py: the data and decisions behind the six figure builders (`build_pie` through `Charts.BuildPie`) |
| `JsonLoaders` | utils/jsonloaders.py: the payload dispatch, GeoJSON flattening, centroid and validation |
| `Aggregate` | `value_counts`, `groupby(...).mean()` and `dropna(subset=...)`, shared by the chart modules |
| `Seqs`, `Text`, `Frames` | general sequence, string and table vocabulary (filtering, sorting, `str.strip`, `str.lower`, a table of typed columns) |

A table is a list of typed columns and a list of rows of cells. A cell is null, a string, a number (a `real`) or a date stamp.

Some behaviour comes from libraries rather than the repository. It enters the model as function parameters:

- `str()` of a value;
- `pd.to_numeric` of one string, and whether it reads that string as an integer or as a float;
- date parsing;
- the EPSG:2393 to EPSG:4326 projection.

Each Dash callback is a function or method of its inputs. The loops the source runs are methods with loop invariants, each proved equal to a specification function:

- `_norm_cols` and its `clean`;
- the suffix search;
- the pick loops of `init_keep_cols`;
- `flatten_unique`;
- `categorize_columns`;
- the column loops of `preprocess_dataframe`;
- `_flatten_coordinates`' `walk`;
- the feature loop of `_geojson_to_dataframe`.

The lemmas then state what the source promises of those functions.

`_apply_value_filter` in callbacks/charts.py:27-34 is the same code as `apply_value_filter` in services/transforms.py:19-26. Both are modelled by `Transforms.ApplyValueFilter`. `build_pie` in services/figures.py:207-224 computes the same value counts as `_build_pie` in callbacks/charts.py:100-107, so `Charts.BuildPie` models both (and `Charts.BuildPieAsWritten` both as written); only its title and trace styling differ. Likewise `_flatten_unique` in callbacks/menus.py:30-38 is the same loop as `flatten_unique` in utils/helpers.py:17-28, modelled by `Helpers.FlattenUnique`.

## Model

| member | source | states |
|---|---|---|
| HeaderNames.SuffixedInjective | preprocessing/analysis_pipeline.py:54-56 | different suffix numbers give different `base__k` names |
| HeaderNames.SuffixSetBelow | preprocessing/analysis_pipeline.py:53-55 | a larger suffix is not among the smaller ones |
| HeaderNames.SuffixSetSize | preprocessing/analysis_pipeline.py:53-55 | the names `base__1` to `base__k` are k different names |
| HeaderNames.SuffixesBounded | preprocessing/analysis_pipeline.py:54-55 | the suffix loop ends: `base__1` to `base__k` all taken means at least k names are taken |
| HeaderNames.FreshSuffix | preprocessing/analysis_pipeline.py:53-55 | the suffix found is free and every smaller suffix is taken |
| HeaderNames.Unique | preprocessing/analysis_pipeline.py:51-56 | the name given is never one already taken |
| HeaderNames.NormFrom | preprocessing/analysis_pipeline.py:48-59 | one output name per input name |
| HeaderNames.NormCols | preprocessing/analysis_pipeline.py:15-61 | one output name per input column |
| HeaderNames.CleanName | preprocessing/analysis_pipeline.py:22-42 | the character loop computes the cleaned name |
| HeaderNames.NormalizeColumnNames | preprocessing/analysis_pipeline.py:44-61 | the main loop computes the normalised names |
| HeaderNames.LeastFreeSuffix | preprocessing/analysis_pipeline.py:53-55 | the `while` loop finds the least free suffix from 1 |
| HeaderNames.FreshSuffixLeast | preprocessing/analysis_pipeline.py:53-55 | the suffix found is the least free one |
| HeaderNames.CleanCharsAllowed | preprocessing/analysis_pipeline.py:27-36 | the character loop emits only letters, digits and `_` |
| HeaderNames.CleanCharsKeepsAllowed | preprocessing/analysis_pipeline.py:27-31 | a string of letters, digits and `_` passes the loop unchanged |
| HeaderNames.CleanCharsRun | preprocessing/analysis_pipeline.py:32-36 | a run of disallowed characters becomes one `_`, or nothing right after a `_` |
| HeaderNames.CleanIsCanonical | preprocessing/analysis_pipeline.py:22-42 | every cleaned name is non-empty, uses only letters, digits and `_`, and neither starts nor ends with `_` |
| HeaderNames.CleanFixesCanonical | preprocessing/analysis_pipeline.py:22-42 | cleaning a cleaned name changes nothing |
| HeaderNames.SuffixedCanonical | preprocessing/analysis_pipeline.py:56 | a suffixed clean name is clean too |
| HeaderNames.UniqueCanonical | preprocessing/analysis_pipeline.py:51-56 | the unique name of a clean name is clean |
| HeaderNames.NormFromUnique | preprocessing/analysis_pipeline.py:48-59 | the names produced are clean, pairwise different and not already taken |
| HeaderNames.NormColsUnique | preprocessing/analysis_pipeline.py:15-61 | the normalised headers are as many as the columns, clean and pairwise different |
| HeaderNames.NormFromStep | preprocessing/analysis_pipeline.py:49-59 | a new cleaned name is kept as it is; a repeated one gets its least free `__k` |
| HeaderNames.NormFromFixes | preprocessing/analysis_pipeline.py:48-59 | distinct clean names not yet taken pass the loop unchanged |
| HeaderNames.NormColsIdempotent | preprocessing/analysis_pipeline.py:15-61 | normalising normalised headers changes nothing |
| HeaderNames.DuplicatePair | preprocessing/analysis_pipeline.py:51-56 | two headers with the same cleaned name: the first keeps it, the second becomes `__1` |
| Preprocessing.IsLikelyDate | preprocessing/analysis_pipeline.py:78-81 | a name hints a date exactly when its lower-cased form contains one of the date keywords |
| Preprocessing.LikelyDateExtends | preprocessing/analysis_pipeline.py:78-81 | adding characters around a name never removes its date hint |
| Preprocessing.ParseDateCells | preprocessing/analysis_pipeline.py:62-74 | `to_datetime(..., errors="coerce")`: a null stays null, a value the parser reads becomes that timestamp and any other value becomes `NaT`; every result is a timestamp or null |
| Preprocessing.CastCells | preprocessing/analysis_pipeline.py:217-219 | `astype("string")`: a cell is null exactly when it was, a string stays the same string, any other value becomes its `str()`; every result is a string or null |
| Preprocessing.Sample | preprocessing/analysis_pipeline.py:92-95 | the sample holds the first at most 200 non-null values as strings, and is empty exactly when every value is null |
| Preprocessing.CountFinite | preprocessing/analysis_pipeline.py:105 | the parsed count never exceeds the sample |
| Preprocessing.ConvertCells | preprocessing/analysis_pipeline.py:106 | the conversion rewrites every cell on its own, keeping the height |
| Preprocessing.Probes | preprocessing/analysis_pipeline.py:97-100 | one probe per sampled value, after `,` becomes `.` |
| Preprocessing.CoerceNumbersFromStr | preprocessing/analysis_pipeline.py:84-107 | the coercion keeps the column's name and height |
| Preprocessing.UnparseableSample | preprocessing/analysis_pipeline.py:99-102 | the probe raises exactly when some sampled string does not parse |
| Preprocessing.CountFiniteAll | preprocessing/analysis_pipeline.py:105 | a sample that parses throughout counts in full |
| Preprocessing.CoerceAllNumeric | preprocessing/analysis_pipeline.py:84-107 | a text column whose every non-null value parses to a finite number is converted: each value becomes its number and each null stays null; from the `string` dtype the column is integer exactly when no value reads as a float, and from the `object` dtype exactly when moreover no value is null |
| Preprocessing.StripAll | preprocessing/analysis_pipeline.py:116 | the empty tokens, each stripped |
| Preprocessing.NormalizeValue | preprocessing/analysis_pipeline.py:118-122 | a value becomes null exactly when it is null or a string whose stripped form is an empty token; any other value is kept |
| Preprocessing.NormalizeCells | preprocessing/analysis_pipeline.py:127-128 | each cell of a text column is normalised on its own |
| Preprocessing.Transform | preprocessing/analysis_pipeline.py:211-223 | every column step keeps the column's name and height |
| Preprocessing.StepFn | preprocessing/analysis_pipeline.py:211-223 | every column step keeps the column's name and height |
| Preprocessing.StepPrefix | preprocessing/analysis_pipeline.py:222-223 | after the first `j` columns are rewritten, those columns hold the step's result and the others are unchanged |
| Preprocessing.ApplyStep | preprocessing/analysis_pipeline.py:211-223 | a step keeps the column names and the number of rows and rewrites each column by itself |
| Preprocessing.StepPrefixZero | preprocessing/analysis_pipeline.py:222 | before the loop, the table is unchanged |
| Preprocessing.ReplaceColumn | preprocessing/analysis_pipeline.py:223 | `df[c] = ...` replaces one column and its cells and leaves the rest |
| Preprocessing.StepPrefixNext | preprocessing/analysis_pipeline.py:222-223 | one more turn of the loop rewrites one more column |
| Preprocessing.RewriteColumns | preprocessing/analysis_pipeline.py:222-223 | the column loop computes the step on every column |
| Preprocessing.RewriteEach | preprocessing/analysis_pipeline.py:222-223 | the column loop rewrites every column in turn |
| Preprocessing.RewriteColumn | preprocessing/analysis_pipeline.py:223 | one turn of the loop rewrites the next column |
| Preprocessing.ConvertedDType | preprocessing/analysis_pipeline.py:106 | `pd.to_numeric` gives an integer or a float column, never a boolean one |
| Preprocessing.Converted | preprocessing/analysis_pipeline.py:106 | the converted column keeps its name and height, has a numeric dtype, and holds only numbers and nulls |
| Preprocessing.NormalizeEmptyCells | preprocessing/analysis_pipeline.py:110-130 | only text columns are normalised: their empty tokens become null and every other cell is kept |
| Preprocessing.FirstName | preprocessing/analysis_pipeline.py:140-141 | `next(...)` finds nothing exactly when no name passes, and otherwise the first name that does |
| Preprocessing.FindLatLonNeverFinds | preprocessing/analysis_pipeline.py:139-142 | as written, the test compares the whole list of names with the name lists and never finds a column |
| Preprocessing.FindLatLonIntendedFinds | preprocessing/analysis_pipeline.py:134-142 | the corrected lookup finds a latitude (longitude) column exactly when some column's lower-cased name is in the latitude (longitude) list, and returns such a column |
| Preprocessing.KeyIndex | preprocessing/analysis_pipeline.py:152 | a key's position in the dict, or none exactly when it is absent |
| Preprocessing.DictSet | preprocessing/analysis_pipeline.py:152 | assigning a key keeps an existing key in its place and appends a new one |
| Preprocessing.ColMap | preprocessing/analysis_pipeline.py:152 | each key of the lookup is the lower-cased form of its column |
| Preprocessing.FindOne | preprocessing/analysis_pipeline.py:154-158 | a column is returned only when its key contains one of the tokens |
| Preprocessing.HasKkjXy | preprocessing/analysis_pipeline.py:145-162 | the easting (northing) found is a column whose lower-cased name contains an x (y) token |
| Preprocessing.ColMapDistinct | preprocessing/analysis_pipeline.py:152 | when no two names lower-case alike, the lookup has one entry per column, in order |
| Preprocessing.FindOnePairs | preprocessing/analysis_pipeline.py:154-158 | over such a lookup, `find_one` returns the first column whose name contains a token |
| Preprocessing.FirstMatchingCons | preprocessing/analysis_pipeline.py:155-157 | the first match is the head when the head matches, else the first match of the rest |
| Preprocessing.KkjFirstMatch | preprocessing/analysis_pipeline.py:145-162 | when no two names lower-case alike, the KKJ columns are the first columns whose names contain an x or y token |
| Preprocessing.Between | preprocessing/analysis_pipeline.py:181-182 | `where(between(lo, hi))` keeps a number inside the range and nulls anything else |
| Preprocessing.KkjToWgs84 | preprocessing/analysis_pipeline.py:165-189 | the projected columns have one entry per row, each null or inside the latitude (longitude) range |
| Preprocessing.KkjMasksPerCoordinate | preprocessing/analysis_pipeline.py:171-189 | each range applies to its own coordinate; rows that do not parse or project get nulls; without a transform every row gets nulls |
| Preprocessing.AppendLatLon | preprocessing/analysis_pipeline.py:245-246 | the concatenation appends the latitude and then the longitude column, each when present, to every row |
| Preprocessing.AppendLatLonPrefix | preprocessing/analysis_pipeline.py:245-246 | the concatenation keeps every original column and cell where it was |
| Preprocessing.ExtendsPrefix | preprocessing/analysis_pipeline.py:246 | cells added at the end of every row leave the old cells where they were |
| Preprocessing.AppendLatLonColumn | preprocessing/analysis_pipeline.py:245-246 | each appended column is a float latitude or longitude column within its range |
| Preprocessing.AppendLatLonCoordinates | preprocessing/analysis_pipeline.py:245-246 | the concatenation only appends coordinate columns within their ranges |
| Preprocessing.MaskedColumn | preprocessing/analysis_pipeline.py:232-233 | each value is the column's number when inside the range and null otherwise |
| Preprocessing.NamedStep | preprocessing/analysis_pipeline.py:230-237 | the named branch appends a latitude and a longitude column, each only when the table lacks one |
| Preprocessing.AddCoordinates | preprocessing/analysis_pipeline.py:225-246 | the coordinate step only appends coordinate columns within their ranges and keeps everything else |
| Preprocessing.KkjStep | preprocessing/analysis_pipeline.py:238-243 | the KKJ branch only appends coordinate columns within their ranges |
| Preprocessing.AsWrittenIsKkjOnly | preprocessing/analysis_pipeline.py:228-243 | as written, the coordinate step is the KKJ branch alone |
| Preprocessing.NamedBranchAddsBoth | preprocessing/analysis_pipeline.py:230-237 | with the corrected lookup and neither coordinate column present, both are appended, latitude first |
| Preprocessing.NamedBranchLatitude | preprocessing/analysis_pipeline.py:232-235 | each added latitude is the found column's number when it lies in [-90, 90], and null otherwise |
| Preprocessing.KeptRows | preprocessing/analysis_pipeline.py:255 | the kept rows all hold a value |
| Preprocessing.KeptColumns | preprocessing/analysis_pipeline.py:255 | the kept columns are exactly those holding a value in some kept row |
| Preprocessing.DropEmpty | preprocessing/analysis_pipeline.py:255 | dropping keeps only original columns |
| Preprocessing.DropEmptyRows | preprocessing/analysis_pipeline.py:255 | after dropping, every row holds a value |
| Preprocessing.DropEmptyColumns | preprocessing/analysis_pipeline.py:255 | after dropping, every column holds a value |
| Preprocessing.NormalizeHeaders | preprocessing/analysis_pipeline.py:209 | the new header row is the normalised old one |
| Preprocessing.PreprocessDataframe | preprocessing/analysis_pipeline.py:193-258 | the step-by-step pipeline computes the preprocessing |
| Preprocessing.LatLonCanonical | preprocessing/analysis_pipeline.py:235-243 | the added column names have the normalised header shape |
| Preprocessing.StepKeepsCanonical | preprocessing/analysis_pipeline.py:211-223 | column steps keep the headers normalised |
| Preprocessing.CoordinatesKeepCanonical | preprocessing/analysis_pipeline.py:225-246 | the coordinate step keeps the headers normalised |
| Preprocessing.AppendsKeepCanonical | preprocessing/analysis_pipeline.py:245-246 | appending coordinate columns keeps the headers normalised |
| Preprocessing.HeadersCanonical | preprocessing/analysis_pipeline.py:209 | after step 1 every header is normalised |
| Preprocessing.PreprocessShape | preprocessing/analysis_pipeline.py:193-258 | the result has no all-null row or column, and every header is non-empty, made of letters, digits and `_`, and neither starts nor ends with `_` |
| Classifier.RuleOrder | preprocessing/column_classifier.py:5-34 | the rule table has seven rules, tried in declaration order: Time, Coordinates, Region or area first and Counts sixth |
| Classifier.Categories | preprocessing/column_classifier.py:55 | the keys of `cats` are the rule categories in table order followed by Numeric, Text, Other |
| Classifier.ContainsKeywordMeaning | preprocessing/column_classifier.py:40-42 | the substring loop succeeds exactly when some keyword, lower-cased, occurs in the name |
| Classifier.EqualsKeywordMeaning | preprocessing/column_classifier.py:44-46 | the whole-word loop succeeds exactly when the name equals some keyword, lower-cased |
| Classifier.MatchCategoryMeaning | preprocessing/column_classifier.py:36-47 | a name matches a rule exactly when its stripped, lower-cased form contains a substring keyword or equals a whole-word keyword |
| Classifier.FirstMatch | preprocessing/column_classifier.py:59-62 | the rule found matches the name and no earlier rule does; when none is found no rule matches |
| Classifier.CategoryIndex | preprocessing/column_classifier.py:57-71 | every column is put in exactly one of the rule or fallback categories |
| Classifier.CategoryIndexMeaning | preprocessing/column_classifier.py:57-71 | a column goes to the first rule its name matches; otherwise to Numeric for a numeric dtype, else Text for a string dtype, else Other |
| Classifier.FirstMatchWins | preprocessing/column_classifier.py:59-62 | when rule `k` matches and no earlier rule does, the column's category is rule `k` (`break` after the first match) |
| Classifier.Labels | preprocessing/column_classifier.py:57-71 | the category of each column, in table order |
| Classifier.Bucket | preprocessing/column_classifier.py:61-71 | a category's list is never longer than the column list |
| Classifier.BucketPositions | preprocessing/column_classifier.py:61-71 | a category's list holds exactly the names of the columns of that category, in table order |
| Classifier.BucketMembers | preprocessing/column_classifier.py:61-71 | a name is listed under a category exactly when some column of that name has that category |
| Classifier.Buckets | preprocessing/column_classifier.py:55-71 | `cats` after the loops: one list per category, empty ones included |
| Classifier.NonEmptyKeys | preprocessing/column_classifier.py:73 | the kept category positions are below the number of categories |
| Classifier.NonEmptyKeysMeaning | preprocessing/column_classifier.py:73 | the kept positions are exactly those of the non-empty lists, ascending |
| Classifier.NonEmpty | preprocessing/column_classifier.py:73 | the comprehension keeps no empty list and never more entries than categories |
| Classifier.NonEmptyAtKeys | preprocessing/column_classifier.py:73 | the `m`-th kept entry is the `m`-th non-empty list with its category name |
| Classifier.CategorizeShape | preprocessing/column_classifier.py:49-73 | the result lists the non-empty categories in category order, each with its list; none is empty and every non-empty category appears |
| Classifier.BucketsPartition | preprocessing/column_classifier.py:57-71 | with distinct column names, each column is listed under its own category and under no other |
| Classifier.BucketNamesAreColumns | preprocessing/column_classifier.py:57-71 | every listed name is a column of the frame |
| Classifier.RuleFor | preprocessing/column_classifier.py:59-71 | the `for ... else` loop over the rules yields the column's category |
| Classifier.FillBuckets | preprocessing/column_classifier.py:55-71 | the nested loops leave each category's list equal to the names of its columns, in table order |
| Classifier.CategorizeColumns | preprocessing/column_classifier.py:49-73 | `categorize_columns` returns exactly the grouping specified by `Categorize` |
| Classifier.KeepNonEmpty | preprocessing/column_classifier.py:73 | the closing comprehension keeps each non-empty list with its category, in category order |
| Classifier.NoMatchesCounts | preprocessing/column_classifier.py:26-27 | a name containing `no` matches the Counts rule |
| Classifier.ContainsNoIsCounts | preprocessing/column_classifier.py:5-34 | a name that misses the first five rules and contains `no` is a Counts column |
| Classifier.RuleMissed | preprocessing/column_classifier.py:36-47 | a name that no keyword of a rule can occur in or equal does not match that rule |
| Classifier.SiteMissesTime | preprocessing/column_classifier.py:6-9 | a name that trims to `site` does not match the Time rule |
| Classifier.SiteMissesCoordinates | preprocessing/column_classifier.py:10-13 | a name that trims to `site` does not match the Coordinates rule |
| Classifier.SiteMatchesRegion | preprocessing/column_classifier.py:14-17 | a name that trims to `site` matches the Region or area rule through its whole word |
| Classifier.SiteIsRegion | preprocessing/column_classifier.py:14-25 | a column whose trimmed name is `site` is a Region or area column whatever its dtype, never Site type |
| Classifier.ExactSiteIsRegion | preprocessing/column_classifier.py:14-25 | in particular a column named exactly `site` |
| Helpers.Values | utils/helpers.py:22 | `meta.values()`: one list per category, in map order |
| Helpers.AllColumns | utils/helpers.py:22-23 | a name occurs in the concatenated lists exactly when some category lists it |
| Helpers.AddUnseen | utils/helpers.py:23-26 | the inner loop extends the unique list to the first occurrences of everything seen so far, and `seen` stays the set of its elements |
| Helpers.FlattenUnique | utils/helpers.py:17-28 | `flatten_unique` returns the distinct categorised columns in first-occurrence order |
| Helpers.FlattenUniqueComplete | utils/helpers.py:17-28 | the result has no duplicate, holds exactly the categorised columns, and keeps their first-occurrence order |
| Helpers.MakeOptions | utils/helpers.py:31-33 | one option per value, in order, labelled and valued by it |
| Helpers.MakeOptionsNames | utils/helpers.py:31-33 | reading the values back from the options gives the original list |
| Helpers.DTypeOf | utils/helpers.py:41-43 | a column's dtype is known exactly when the frame has that column |
| Helpers.TypedListsSplit | utils/helpers.py:36-44 | both lists keep the order of the present columns; the string list holds exactly the present `string` columns, the numeric list exactly the present numeric ones, and no column is in both |
| Helpers.StampYears | utils/helpers.py:56-57 | the years are exactly those of the non-null timestamps |
| Helpers.NumericYearsMeaning | utils/helpers.py:58 | the integer cast fails exactly when a coercible value has a fractional part; otherwise the years are exactly the coercible values |
| Helpers.ExtractYears | utils/helpers.py:49-58 | a missing column is an error, and a datetime column gives the years of its timestamps |
| Menus.Keys | callbacks/menus.py:61-63 | the category names, one per map entry, in entry order |
| Menus.FillCategories | callbacks/menus.py:55-67 | one option per category, captioned with its name and column count and valued by the name; the first category is selected, and nothing for an empty map |
| Menus.FillCategoriesOffersKeys | callbacks/menus.py:55-67 | the dropdown offers exactly the categories in map order, and the default is one of them |
| Menus.CountCaptionInjective | callbacks/menus.py:62 | the count in a "Name (count)" caption can be read back: different counts give different captions |
| Menus.Lookup | callbacks/menus.py:80 | `meta.get(cat, [])` returns only categorised columns |
| Menus.LookupMeaning | callbacks/menus.py:80 | `meta.get` returns the columns of the entry named `cat` |
| Menus.LookupMissing | callbacks/menus.py:80 | `meta.get` of a category the map lacks gives the empty list |
| Menus.ShowColumns | callbacks/menus.py:76-81 | "No columns found" exactly when there is no map or no category chosen; otherwise only categorised columns are listed |
| Menus.PriorityLists | callbacks/menus.py:118-119 | one list per category of the priority order, holding at most the first four of its columns |
| Menus.KeepSelection | callbacks/menus.py:107-140 | the preselection never exceeds 30 columns |
| Menus.FeedAppend | callbacks/menus.py:110-138 | running the greedy loops over two lists in turn is running them over their concatenation |
| Menus.FeedFull | callbacks/menus.py:123-126 | once 30 columns are picked nothing more is picked |
| Menus.FeedTakesDistinct | callbacks/menus.py:107-138 | the greedy loops from nothing pick the first 30 distinct candidates, in order |
| Menus.PickColumns | callbacks/menus.py:119-124 | the inner loop appends each unseen column until the cap, keeping the seen set equal to the picked columns |
| Menus.FlattenSnoc | callbacks/menus.py:118-119 | flattening one more list appends its columns |
| Menus.PickFrom | callbacks/menus.py:118-138 | one phase of nested loops picks exactly as the greedy loops over the flattened lists, stopping at the cap |
| Menus.FeedListStep | callbacks/menus.py:118-124 | one more list of a phase feeds its columns after those already fed |
| Menus.FeedListsFull | callbacks/menus.py:125-126 | after the cap the remaining lists of a phase pick nothing |
| Menus.PickCoordinates | callbacks/menus.py:111-115 | the coordinate loop picks latitude then longitude, each once |
| Menus.InitKeepCols | callbacks/menus.py:91-140 | nothing without a map or data; otherwise every categorised column once as an option and the preselection of the coordinates, then four per priority category, then map order, capped at 30 |
| Menus.KeepSelectionBounded | callbacks/menus.py:107-140 | the preselection holds no column twice, at most 30, and only categorised columns or coordinates that exist |
| Menus.DedupPairFirst | callbacks/menus.py:111-115 | two different leading columns are picked first, in their order |
| Menus.CoordinatesFirst | callbacks/menus.py:110-115 | when both coordinates exist they are the first two preselected columns |
| Menus.PriorityPicksFirst | callbacks/menus.py:117-126 | when the coordinates and the priority columns fit under the cap, they are all picked, first and in order |
| Menus.AllPickedWhenFew | callbacks/menus.py:128-138 | when the map holds at most 30 distinct columns, every one of them is preselected |
| Menus.ActiveCols | callbacks/menus.py:148-151 | the active columns are the first 30 kept columns, all of them when there are no more, and none for None |
| Menus.ActiveColsKeepPreselection | callbacks/menus.py:148-151 | the preselection passes to the active columns unchanged, and capping twice changes nothing |
| Menus.FillSelectors | callbacks/menus.py:170-183 | every selector is empty without active columns or data |
| Menus.FillSelectorsOffer | callbacks/menus.py:185-206 | the filter offers exactly the active columns in the table; the other selectors offer only those, and only string (numeric) columns whenever an active one is string (numeric) |
| Menus.Shown | callbacks/menus.py:233-237 | the shown values are exactly the string forms of the non-null cells |
| Menus.FillFilterValues | callbacks/menus.py:217-230 | no options and no value when the column is unset, there is no data or active list, or the column is not active or not in the table |
| Menus.FilterValuesMeaning | callbacks/menus.py:232-247 | for an active column in the table "All" comes first and is selected, and the values after it are strictly ascending and are exactly the string forms of its non-null cells |
| Menus.TimeRank | callbacks/menus.py:270-278 | the sort key ranks date-time 0, integer 1, string 2 and anything else 3 |
| Menus.FillTimeColumnOptions | callbacks/menus.py:259-283 | nothing without a map, active columns or data; a default exactly when there is an option, and it is the first option |
| Menus.TimeOptionsMeaning | callbacks/menus.py:266-281 | the suggestions are a permutation of the active, present Time columns, sorted by rank, with equal ranks kept in map order |
| Menus.YearChoices | callbacks/menus.py:313-314 | one option per year, captioned by its decimal form and valued by the number |
| Menus.YearChoicesYears | callbacks/menus.py:313-314 | the year options give back exactly the years they were made from |
| Menus.FillYearValues | callbacks/menus.py:293-305 | nothing for an unset time column, no data or an unknown column |
| Menus.YearValuesMeaning | callbacks/menus.py:307-317 | when years were extracted, "All years" comes first and is selected, followed by every distinct year once in strictly ascending order |
| Menus.SyncLineTimeSelector | callbacks/menus.py:327-332 | the line selector gets the same options, and a value only when there are options |
| Menus.SyncCopiesTimeOptions | callbacks/menus.py:319-332 | syncing the time suggestions copies them exactly, default included |
| Transforms.KeptPositions | services/transforms.py:11-14 | the kept positions, ascending, are exactly the columns that are active, coordinates present as a pair, or in `also_keep` |
| Transforms.SubsetToActive | services/transforms.py:9-17 | with nothing to keep the result has the original columns and no rows (`iloc[0:0]`); otherwise it has the kept columns in frame order, every row, and each kept cell unchanged |
| Transforms.SubsetToActiveMeaning | services/transforms.py:9-17 | when something is kept the result has exactly the kept columns; when nothing is kept it has no rows; every present active column is kept; latitude and longitude are kept whenever both exist |
| Transforms.ApplyValueFilter | services/transforms.py:19-24 | the columns never change, and a missing column or value, an unknown column or the all token leaves the frame as it was |
| Transforms.ValueFilterMeaning | services/transforms.py:26 | otherwise the rows kept are, in order, exactly those whose cell rendered as text equals the value |
| Transforms.ValueFilterIdempotent | services/transforms.py:19-26 | applying the value filter twice gives the same frame as applying it once |
| Transforms.ItemYear | services/transforms.py:46 | a year read from an item is never negative (`str(y).isdigit()`) |
| Transforms.DigitYears | services/transforms.py:46 | the normalised years are exactly the items that read as digit strings, as integers |
| Transforms.DigitYearsReadsRendered | services/transforms.py:46 | a year rendered as decimal text reads back as that year |
| Transforms.CellYear | utils/helpers.py:49-58 | a datetime cell gives a year exactly when it is a timestamp; any other cell exactly when it coerces to a whole number, which is then its year |
| Transforms.CellYearAgreesWithExtractYears | utils/helpers.py:49-58 | the years `extract_years` returns are exactly the years of the column's cells, row by row |
| Transforms.ApplyYearFilterAsWritten | services/transforms.py:28-51 | as written the filter fails (the call at line 49 passes one argument to a two-argument function) exactly when it gets past the early returns, and otherwise returns the frame unchanged |
| Transforms.ApplyYearFilter | services/transforms.py:34-39 | the columns never change; a missing or unknown time column, falsy years or a list holding the all sentinel leave the frame as it was |
| Transforms.YearFilterMeaning | services/transforms.py:42-51 | otherwise the rows kept are, in order, exactly those whose year is among the normalised years, and none when no item is a digit string |
| Transforms.FiltersCommute | services/transforms.py:19-51 | the value filter and the year filter give the same frame in either order |
| Charts.SubsetActive | callbacks/charts.py:14-24 | when some column is kept, the result has exactly the active columns present and, when both exist, latitude and longitude; when none is kept it has no rows |
| Charts.ApplyYearFilterAsWritten | callbacks/charts.py:37-51 | as written the filter fails (line 49 calls the two-argument `extract_years` with one argument) exactly when the time column is set and present and the years are truthy; otherwise the frame is returned unchanged |
| Charts.IntYears | callbacks/charts.py:45-50 | `isin(years)` on integer years can match exactly the integer entries of the list |
| Charts.YearFilterCallFixed | callbacks/charts.py:37-51 | with the call repaired, the filter raises exactly when its guards pass and some time cell yields no year (the shorter mask cannot be aligned); otherwise it keeps the columns and drops only rows |
| Charts.AllYearsDropsEveryRow | callbacks/charts.py:37-51 | with the call repaired but no "all" check, choosing "All years" raises exactly when some time cell yields no year and otherwise drops every row, where the filter of services/transforms.py keeps the frame unchanged |
| Charts.BuildMap | callbacks/charts.py:55-76 | a point map exactly when both coordinate columns exist and some row has both; it plots exactly the rows with both, and hovers on `hover_col` exactly when it is a column |
| Charts.BuildBarAsWritten | callbacks/charts.py:80-96 | as written the bar chart raises exactly when `x_col` is a column and either one numeric column is both `x_col` and `y_col`, or the count branch is taken for an `x_col` named `count` (`reset_index` cannot insert a name twice); otherwise it is `BuildBar` |
| Charts.BuildBar | callbacks/charts.py:80-96 | with the same-column and `count`-name cases repaired: mean bars exactly when `x` and `y` are columns and `y` is numeric; count bars exactly when `x` is a column otherwise; the empty figure exactly when `x` is not a column |
| Charts.SameColumnBarsAreValues | callbacks/charts.py:86-89 | with one numeric column on both axes, each bar's mean is its own value, and a non-number's bar has no mean |
| Charts.MeanBarsMeaning | callbacks/charts.py:87-89 | the mean bars list every value of `x` exactly once, each with the mean of `y` over its rows |
| Charts.MeanBarBetween | callbacks/charts.py:87-89 | each bar's mean lies between the smallest and the largest `y` of its group |
| Charts.CountBarsMeaning | callbacks/charts.py:91-94 | the count bars count every row once, nulls included, larger counts first, listing every value of `x` with its count |
| Charts.BuildPieAsWritten | callbacks/charts.py:100-107 | as written the pie raises exactly when the pie column exists and is named `count`, the name of the counts Series; otherwise it is `BuildPie` |
| Charts.BuildPie | callbacks/charts.py:100-107 | with the `count`-name case repaired: a pie exactly when the column exists; its counts cover every row once, larger counts first, listing every value with its count |
| Charts.ChartFrame | callbacks/charts.py:131-149 | with the year filter corrected as in Findings: no frame without data or active columns; otherwise a non-empty subset's columns and exactly its rows that pass both the value filter and the year filter |
| Charts.FilteredRows | callbacks/charts.py:145-149 | the value filter followed by the year filter keeps exactly the rows that pass both |
| Charts.RenderFigures | callbacks/charts.py:131-156 | with the corrected year filter, bar chart and pie: three empty figures without data or active columns; otherwise the map, bar and pie of the filtered frame, the map hovering on `x_col` |
| Charts.RenderCountsFilteredRows | callbacks/charts.py:131-156 | every count bar chart and pie counts the rows left after both filters, each exactly once |
| Figures.RoundHalfEven | services/figures.py:141-143 | `round(0)` gives the nearest whole number, a tie going to the even neighbour, and leaves whole numbers as they are |
| Figures.Truncate | services/figures.py:33 | `astype(int)` truncates toward zero, for negative numbers as well |
| Figures.Truncated | services/figures.py:33 | the whole years are exactly the truncations of the numbers that parse |
| Figures.LockYearAxis | services/figures.py:29-38 | the axis is locked exactly when some value parses and every parsed value, truncated, lies between 1800 and 2100 |
| Figures.LockYearAxisMeaning | services/figures.py:35-37 | the locked categories are the distinct years, each written in digits, in strictly ascending order, and no year is missing |
| Figures.BarHeight | services/figures.py:15-17 | the height is 360 plus 22 per category, capped at 1600, which is reached from 57 categories on |
| Figures.BarHeightMonotone | services/figures.py:186-188 | more categories never give a shorter chart |
| Figures.BarKeys | services/figures.py:136-147 | one bar text per row: the rounded whole year when the numeric column is year-like, otherwise the value's text |
| Figures.BuildBarAsWritten | services/figures.py:124-204 | as written the bar chart raises exactly when `x_col` is a column named `count` and the count branch is taken (`reset_index` cannot insert `count` twice); otherwise it is `BuildBar` |
| Figures.BuildBar | services/figures.py:124-204 | with the `count`-name case repaired: the empty figure exactly when `x` is missing or not a column; mean bars exactly when `y` is a different numeric column; the category count, height, tilt above 12 and hidden values above 28 follow the distinct bar texts, and the year lock follows the labels |
| Figures.MeanBarsMeaning | services/figures.py:150-158 | mean bars list every bar text exactly once, in ascending order, as many as the categories, each with the mean of `y` over its rows |
| Figures.CountBarsMeaning | services/figures.py:165-170 | count bars list every bar text, as many as the categories, larger counts first, adding up to the number of rows |
| Figures.YearLikeKeys | services/figures.py:139-143 | on a year-like numeric column every bar text is the rendering of some row's rounded year |
| Figures.HiddenValuesAreTilted | services/figures.py:196-202 | a chart that hides its value labels also tilts its tick labels and is at least 998 pixels high |
| Figures.ISqrt | services/figures.py:239 | `int(np.sqrt(n))` is the whole square root: its square is at most `n` and the next square is above `n` |
| Figures.HistBins | services/figures.py:240 | the bin count stays between 5 and 60 and, when both are at least 5, is at most the distinct count and the square root |
| Figures.HistBinsExtremes | services/figures.py:240 | 3600 values with 60 distinct ones reach the cap of 60; five or fewer distinct values give 5 bins |
| Figures.FiniteValues | services/figures.py:232-233 | the values kept are exactly the cells that parse to a finite number, never more than the cells |
| Figures.BuildHist | services/figures.py:226-244 | no histogram exactly when the column is missing, unknown or has no finite value; otherwise the finite values, with 5 to 60 bins chosen from their count and distinct count |
| Figures.HistBinsAtMostDistinct | services/figures.py:237-240 | more than 5 bins only when there are at least as many distinct values and at least the square of the bins in values |
| Figures.BuildBox | services/figures.py:247-255 | a box plot exactly when `x` and `y` are both columns and `y` is numeric; it covers every row |
| Figures.TimeKey | services/figures.py:265-272 | a date-time column groups by month and only its stamps count; any other column groups by the rounded number and only its parsed values count |
| Figures.PresentKeys | services/figures.py:272-275 | the keys kept are exactly those present, the missing ones dropped |
| Figures.BuildLine | services/figures.py:258-287 | a line exactly when the time column and a numeric `y` exist; monthly exactly for a date-time column, and a monthly line never locks a year axis |
| Figures.BuildLineMeaning | services/figures.py:265-283 | the points are in strictly ascending time order, one for every time present in some row, each with the mean of `y` over that time's rows |
| Figures.DistinctNumbers | services/figures.py:71 | `pd.unique` of the non-null numbers: each present number exactly once |
| Figures.ColorModeOf | services/figures.py:66-91 | no colouring exactly when the colour column is missing or unknown; the binary and continuous scales only on numeric columns; the fixed colours on text only when every value reads "0" or "1" |
| Figures.ZeroOneAtMostTwo | services/figures.py:73 | distinct values drawn from 0 and 1 are at most two, so the length test adds nothing to the subset test |
| Figures.NumericColorMode | services/figures.py:70-85 | a numeric colour column is coloured binary exactly when all its numbers are 0 or 1, and on the continuous scale exactly when some number is neither |
| Figures.BuildMap | services/figures.py:43-121 | a point map exactly when both coordinate columns exist and some row has both; it plots exactly those rows, hovers on `hover` exactly when it is a column, and colours exactly when the colour column exists |
| JsonLoaders.Get | utils/jsonloaders.py:33 | `d.get(key)` finds a value exactly when the key is present, and the value is one stored under it |
| JsonLoaders.GetOr | utils/jsonloaders.py:53 | `d.get(key, default)` gives the default exactly for a missing key, and otherwise a value stored under it |
| JsonLoaders.SetField | utils/jsonloaders.py:67-68 | `row[key] = value` makes the key read the value, leaves every other key as it was, and appends the key only when it is new |
| JsonLoaders.Cons | utils/jsonloaders.py:33 | a lookup in a record finds its first entry before the rest |
| JsonLoaders.AsNumber | utils/jsonloaders.py:116-125 | a JSON value counts as a number exactly when it is a number or a boolean, and a number reads as itself |
| JsonLoaders.ValidateNumbers | utils/jsonloaders.py:123-129 | two numbers pass exactly when the longitude is within [-180, 180] and the latitude within [-90, 90], and pass unchanged |
| JsonLoaders.Validate | utils/jsonloaders.py:123-129 | two JSON values pass exactly when both are numbers within the WGS84 ranges, and give those numbers |
| JsonLoaders.Position | utils/jsonloaders.py:114-117 | a flat list gives one position exactly when it has at least two entries and the first two are numbers |
| JsonLoaders.Walks | utils/jsonloaders.py:111-112 | the positions under each child, child by child |
| JsonLoaders.WalksSnoc | utils/jsonloaders.py:111-112 | walking one more child appends its positions |
| JsonLoaders.WalkNested | utils/jsonloaders.py:110-112 | a nested list gives its children's positions in order |
| JsonLoaders.WalkInto | utils/jsonloaders.py:107-117 | `walk(obj)` appends exactly the positions under `obj` to the points found so far |
| JsonLoaders.WalkChildren | utils/jsonloaders.py:111-112 | `for child in obj: walk(child)` appends every child's positions in order |
| JsonLoaders.FlattenCoordinates | utils/jsonloaders.py:103-120 | the flattening returns every position in document order |
| JsonLoaders.Positions | utils/jsonloaders.py:103-120 | positions written as GeoJSON `[x, y]` lists, one per position |
| JsonLoaders.WalkLineString | utils/jsonloaders.py:103-120 | flattening a LineString gives back its positions |
| JsonLoaders.FlattenSingletons | utils/jsonloaders.py:111-117 | joining one-position lists gives the positions |
| JsonLoaders.Rings | utils/jsonloaders.py:103-120 | a Polygon's rings written as GeoJSON lists, one per ring |
| JsonLoaders.WalkPolygon | utils/jsonloaders.py:103-120 | flattening a Polygon gives its rings' positions, ring after ring |
| JsonLoaders.GetLonLat | utils/jsonloaders.py:77-100 | a non-object geometry gives nothing, and any coordinates given are within the WGS84 ranges |
| JsonLoaders.GetLonLatMeaning | utils/jsonloaders.py:86-100 | a Point gives its first two coordinates when they are valid; other geometries give the average of their positions exactly when it is valid, and nothing without positions |
| JsonLoaders.SumsBetween | utils/jsonloaders.py:98-99 | the sums of valid positions lie between the count times the lower bound and the count times the upper bound |
| JsonLoaders.CentroidOfValidPositions | utils/jsonloaders.py:93-100 | when every position is valid the average is valid too, so the geometry gives exactly the average |
| JsonLoaders.FeatureItems | utils/jsonloaders.py:53-58 | the loop visits a list's elements; an object or a string gives only strings, which are skipped; a number, boolean or null cannot be iterated |
| JsonLoaders.DictOf | utils/jsonloaders.py:66 | `dict(props)` copies an object and fails on null, a number or a boolean |
| JsonLoaders.NullPropertiesRaiseAsWritten | utils/jsonloaders.py:59-66 | a feature with a valid Point and `"properties": null` passes the coordinate test and then fails in `dict(props)` |
| JsonLoaders.PropertiesOf | utils/jsonloaders.py:59-66 | corrected as in Findings: null properties are read as no properties, anything else as `dict(props)` |
| JsonLoaders.NullPropertiesGiveCoordinates | utils/jsonloaders.py:59-69 | with null read as no properties such a feature gives a row of its coordinates alone |
| JsonLoaders.PointLonLat | utils/jsonloaders.py:90-91 | a Point with valid coordinates gives them back |
| JsonLoaders.CoordinatesAlone | utils/jsonloaders.py:66-68 | setting the coordinates on an empty row gives a row of longitude then latitude |
| JsonLoaders.WithCoordinates | utils/jsonloaders.py:66-68 | the row reads the feature's longitude and latitude, keeps every other property, and loses no key |
| JsonLoaders.FeatureRow | utils/jsonloaders.py:56-69 | with null properties corrected as in Findings: a feature gives a row exactly when it is an object with usable coordinates and convertible properties; the row is its properties with the coordinates set; an error comes only from the properties of a usable feature |
| JsonLoaders.Outcomes | utils/jsonloaders.py:56-69 | one outcome per feature |
| JsonLoaders.Collect | utils/jsonloaders.py:54-69 | never more rows than features |
| JsonLoaders.FailurePersists | utils/jsonloaders.py:66 | once a feature's properties fail, the whole conversion fails with that error |
| JsonLoaders.CollectInOrder | utils/jsonloaders.py:54-69 | the conversion succeeds exactly when no feature fails, and then gives the usable features' rows in order |
| JsonLoaders.RecordColumns | utils/jsonloaders.py:28-74 | the table's columns are every record key, each once |
| JsonLoaders.RecordsFrame | utils/jsonloaders.py:28-74 | the table holds the records, with every key as a column |
| JsonLoaders.RowsFrame | utils/jsonloaders.py:71-74 | with no row, exactly the two coordinate columns and no record; otherwise the rows' table |
| JsonLoaders.GeojsonToDataFrame | utils/jsonloaders.py:47-74 | the feature loop computes the collection's table |
| JsonLoaders.PresentFrom | utils/jsonloaders.py:69 | every row gathered came from some feature |
| JsonLoaders.GeojsonFrameMeaning | utils/jsonloaders.py:47-74 | the table is built exactly when no feature fails; it holds one row per usable feature in order, and every row carries both coordinates within range |
| JsonLoaders.RecordsOf | utils/jsonloaders.py:27-28 | one record per object, in order |
| JsonLoaders.FirstHolding | utils/jsonloaders.py:32-35 | records are found exactly when some key holds a list of objects, and they come from the first such key |
| JsonLoaders.LoadJsonOrGeojson | utils/jsonloaders.py:6-38 | text that is not JSON is an error, and a FeatureCollection is converted as GeoJSON |
| JsonLoaders.LoadDispatch | utils/jsonloaders.py:22-38 | a payload that is not a FeatureCollection loads exactly when it is a list of objects or holds one under `data`, `items` or `rows`, taking the first; a FeatureCollection is always read as GeoJSON |
| JsonLoaders.EmbeddedRecords | utils/jsonloaders.py:31-35 | an object's records come from `data`, else `items`, else `rows` |
| Aggregate.CountOf | services/figures.py:167 | a value's count never exceeds the column and is positive exactly when the value occurs |
| Aggregate.Tallies | services/figures.py:167 | one entry per distinct value, in order of first occurrence, with its count |
| Aggregate.ValueCounts | services/figures.py:167 | `value_counts` has one entry per distinct value |
| Aggregate.TotalBump | services/figures.py:167 | raising one count by one raises the total by one |
| Aggregate.TotalSame | services/figures.py:167 | tallies with the same counts have the same total |
| Aggregate.TotalRemove | services/figures.py:167 | removing an entry lowers the total by its count |
| Aggregate.TotalPermutation | services/figures.py:167 | reordering the counts keeps their total |
| Aggregate.TalliesTotal | services/figures.py:167 | the counts add up to the number of values |
| Aggregate.TalliesSnoc | services/figures.py:167 | one more value raises the total by one |
| Aggregate.ValueCountsMeaning | services/figures.py:167 | `value_counts(dropna=False)` lists larger counts first, is a reordering of the tally, counts every value exactly, nulls included, lists every value that occurs, and adds up to the number of rows |
| Aggregate.NumberOf | services/figures.py:150-153 | a cell has a numeric value exactly when it is a number |
| Aggregate.Numbers | services/figures.py:150-153 | one numeric value or null per row |
| Aggregate.NumOfPositive | callbacks/charts.py:88 | a group holding a row with a number has a number to average |
| Aggregate.NumOfZero | callbacks/charts.py:88 | a group none of whose rows holds a number has nothing to average |
| Aggregate.MeanOfOwnValues | callbacks/charts.py:88 | grouping a column by itself, each value's mean is that value, and a non-number's group has no mean |
| Aggregate.MeanOf | services/figures.py:151-153 | a group's mean exists exactly when some row of the group has a number |
| Aggregate.GroupMeans | services/figures.py:151-155 | one row per group, in the order given, with the group's mean |
| Aggregate.SumBetween | services/figures.py:151-153 | a group's sum lies between its count times the smallest and times the largest value |
| Aggregate.AddBetween | services/figures.py:151-153 | adding a value within the bounds keeps the sum within the bounds |
| Aggregate.MeanBetween | services/figures.py:151-153 | a group's mean lies between its smallest and its largest value |
| Aggregate.DivBetween | utils/jsonloaders.py:98-99 | an average of values within the bounds is within the bounds |
| Aggregate.GeoRows | services/figures.py:56 | `dropna(subset=["latitude", "longitude"])` keeps exactly the rows with both coordinates, in order |

## Left out

- Dash wiring and layout are not modelled: app.py, layout.py, callback registration and callbacks/filters.py. They are event plumbing; filters.py only composes the three transforms.
- Upload and decoding are not modelled: callbacks/upload.py, `json_to_df`, and the `utf-8-sig`/`json.loads` step of `load_json_or_geojson`. A payload that is not JSON is the input `None` of `JsonLoaders.LoadJsonOrGeojson`, which then fails.
- Date parsing (`_parse_dates`) and the pyproj transform are function parameters. The model keeps only the range masking after the transform, and a failure to build the transformer as `project == None`.
- Rounding floats to 3 decimals is not modelled: step 6 of `preprocess_dataframe` and the `round(3)` of bar means. Means are exact `real`s, and IEEE details, NaN and infinities are not modelled.
- Plotly figure construction is not modelled: titles, colours, margins, zoom, `uirevision` and the `meta` dict. The figures are data and decisions only.
- pandas dtype inference is not modelled. Every column carries a dtype from a fixed enumeration, and JSON records are not converted to typed cells. The one dtype the model derives is that of `pd.to_numeric` in `_coerce_numbers_from_str`.
- Preprocessing.CoerceNumbersFromStr: whether `pd.to_numeric` reads a string as an integer or as a float is a parameter, and the nullable `Int64`/`Float64` dtypes are not told apart from `int64`/`float64`.
- `groupby` output order in callbacks/charts.py is modelled as first-occurrence order; services/figures.py sorts its groups, and that order is modelled.
- The order of equal counts in `value_counts` is not fixed by the model: any stable order by descending count satisfies the lemmas.
- `str.isdigit` is modelled for ASCII digits only, and `str.isalnum`/`str.lower` for ASCII and Latin-1 characters only. Other Unicode digits, letters and case mappings are not modelled.
- Duplicate column names and duplicate JSON keys are not modelled beyond lookups taking the first match.
- JsonLoaders.DictOf: `dict()` of a list is modelled only for lists of two-element lists with string keys. Any other list is treated as an error.
- JsonLoaders.WithCoordinates: a boolean coordinate (`true`/`false`) is stored as its number 1 or 0, where Python stores the boolean itself.
- The library sorts (`list.sort`, `sorted`, `value_counts`) are modelled by insertion-sort functions, not by in-place sorting.
- `subset_to_active` with nothing to keep returns `df.iloc[0:0]`. As in the code, that keeps all the columns and drops every row.
- `build_hist` computes `max(5, min(60, ...))`, so fewer than 5 distinct values still give 5 bins. The model follows the code.
- In `_kkj_to_wgs84` and the named lat/lon branch, the ranges are applied per coordinate. A latitude in range survives even when its longitude does not.
- Charts.ChartFrame: it uses the corrected year filter (`Transforms.ApplyYearFilter`), so `Charts.RenderFigures` and `Charts.RenderCountsFilteredRows` describe the callback with the first four Findings repaired. As written, `render_figures` raises once a time column is set and present and the years are truthy, the default `["__ALL__"]` included (`Charts.ApplyYearFilterAsWritten`).
- Charts.RenderFigures: it draws the bar chart with `Charts.BuildBar` and the pie with `Charts.BuildPie`, where the callback as written raises for one numeric column on both axes and for a bar-x or pie column named `count` (`Charts.BuildBarAsWritten`, `Charts.BuildPieAsWritten`).
- Charts.BuildBar: it is the repaired bar chart; as written, the same numeric column on both axes, or counts of a column named `count`, raise (`Charts.BuildBarAsWritten`).
- Charts.BuildPie: it is the repaired pie; as written, counts of a column named `count` raise (`Charts.BuildPieAsWritten`). This holds for `build_pie` in services/figures.py:216 too.
- Figures.BuildBar: it is the repaired bar chart; as written, counts of an x column named `count` raise (`Figures.BuildBarAsWritten`).
- JsonLoaders.FeatureRow: it reads properties with the corrected `JsonLoaders.PropertiesOf`, so `JsonLoaders.Outcomes`, `JsonLoaders.Collect`, `JsonLoaders.GeojsonToDataFrame`, `JsonLoaders.GeojsonFrameMeaning` and `JsonLoaders.LoadJsonOrGeojson` describe the loader with the null-properties finding repaired. As written, a feature with `"properties": null` and usable coordinates aborts the load (`JsonLoaders.NullPropertiesRaiseAsWritten`).
- JsonLoaders.PropertiesOf: it is the corrected reading of `"properties": null`, not the code as written, which raises `TypeError` there.
- Figures.BuildBar: the `n_cats` meta value and the layout calls are left out; only the count they derive from is modelled.

## Findings

| source | as written | input that shows it | evidently intended | confidence | as-written member | corrected member |
|---|---|---|---|---|---|---|
| preprocessing/analysis_pipeline.py:139-142 | `lower_cols in LAT_NAMES` tests the whole list of names against a list of strings, so `_find_lat_lon` always returns `(None, None)` and the named latitude/longitude branch never runs | any table, e.g. one whose columns are `lat` and `lon` | test each column's lower-cased name, so that `lat`/`lon` are found and copied into `latitude`/`longitude` | high (not executed) | Preprocessing.FindLatLonNeverFinds | Preprocessing.FindLatLonIntendedFinds |
| services/transforms.py:49 | `extract_years(df[time_col])` calls the two-argument helper of utils/helpers.py:49 with one argument, so the year filter raises `TypeError` whenever its guards pass | a table with a `year` column and `years = [2009]` | the per-row year of the time column compared with the selected years, a row without a year being dropped as `mask.fillna(False)` shows | high (not executed) | Transforms.ApplyYearFilterAsWritten | Transforms.ApplyYearFilter |
| callbacks/charts.py:49 | the same one-argument `extract_years(df[time_col])` call, so `render_figures` raises once a year is selected | a table with a `year` column and `year_values = [2009]` | the per-row year filter of services/transforms.py | high (not executed) | Charts.ApplyYearFilterAsWritten | Transforms.ApplyYearFilter |
| callbacks/charts.py:37-51 | the year filter has no check for the "All years" sentinel, so even with the call repaired, the default `["__ALL__"]` of the year menu never hands the frame back: it keeps no rows, or raises when a time cell has no year | a table with a `year` column of whole numbers and `year_values = ["__ALL__"]` | skip filtering when the sentinel is selected, as services/transforms.py:37-39 does | medium (not executed) | Charts.AllYearsDropsEveryRow | Transforms.ApplyYearFilter |
| utils/jsonloaders.py:59-66 | `feat.get("properties", {})` returns `None` for `"properties": null`, which section 3.2 of RFC 7946 permits, and `dict(None)` raises, so a valid Point feature aborts the whole load | `NullPropertiesFeature(24.9, 60.2)`: a Point at (24.9, 60.2) with null properties | read null properties as none, giving a row of the coordinates alone | high (not executed) | JsonLoaders.NullPropertiesRaiseAsWritten | JsonLoaders.NullPropertiesGiveCoordinates |
| callbacks/charts.py:86-89 | with the same numeric column as `x_col` and `y_col`, `groupby(x_col)[x_col].mean()` is a Series named like its index, and `reset_index()` raises `ValueError` because that column already exists, so `render_figures` fails | a table with a numeric `year` column chosen as both bar axes | a chart instead of an exception: the docstring's mean of `y` by `x`, which for one column puts each bar at its own value (services/figures.py:138-151 avoids the crash differently: once `x` is cast to strings, `y` is no longer numeric and counts are drawn) | medium (not executed) | Charts.BuildBarAsWritten | Charts.SameColumnBarsAreValues |
| callbacks/charts.py:92-104 | `value_counts(dropna=False)` returns a Series named `count` whose index carries the column's name, so for a column named `count` (what header normalisation makes of `Count` or ` COUNT `, and a name the Counts rule expects) `reset_index()` raises `ValueError: cannot insert count, already exists` in the bar and the pie | a table with a column `count` and `pie_col = "count"`, or `x_col = "count"` with no numeric `y_col` | the counts of the column, as for any other name | medium (not executed) | Charts.BuildPieAsWritten | Charts.BuildPie |
| services/figures.py:165-173 | the same `value_counts(dropna=False).reset_index()` in the count branch of `build_bar` (and at line 216 in `build_pie`) | a table with a column `count` and `x_col = "count"` with no numeric `y_col` | the counts of the bar texts, as for any other name | medium (not executed) | Figures.BuildBarAsWritten | Figures.CountBarsMeaning |
