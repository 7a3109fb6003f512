# Movie catalogue cleaning and analysis, modelled in Dafny

The system fetches movie records from a catalogue service. `process_data` turns the raw records into a cleaned table. `analyze_movies` then ranks, searches and groups that table. This project models those two functions:

- `process_data` (src/process_data.py:19-153).
- The ranking helper, the two substring searches, the franchise flag and the franchise and director count/sum tables of `analyze_movies` (src/analysis.py:16-140).

It proves what the cleaned table and the queries guarantee.

The model is built from these parts:

- **Cells and tables.** A cell is a `Value`:
  - `Missing` (NaN, None, NaT, pd.NA, or a key the record lacks);
  - a boolean;
  - an exact real number;
  - a text;
  - a date as a day number;
  - or a nested JSON list or object.

  A row maps column names to cells. A `Frame` has an ordered column list and a sequence of rows, each row keyed by exactly those columns. Every pandas call the code makes is a function on frames (module `Frames`). Examples: `drop(columns=...)`, `df[c] = ...`, `df[cols]`, boolean-mask indexing.
- **Exceptions.** An exception the code raises becomes an `Err` result:
  - `extract_names` or `get_director`/`get_cast` failing on a malformed entry;
  - a `KeyError` for a column indexed unconditionally;
  - a `TypeError` from comparing text with a number;
  - a `TypeError` from hashing a list or an object, which `value_counts` and `groupby` do to every key.

  No operation demands of its caller more than the code does.
- **Lines 23-80 of `process_data`** loop over column lists and rebind the table. They are modelled twice:
  - as methods that change the table column by column, as the code does (module `NormalizeColumns`);
  - as a row-at-a-time reference definition, `NormalizeRow` (module `Normalize`).

  `NormalizeColumns.NormalizeColumns` is proved to produce exactly the reference table. The properties of the transform are proved about the reference definition.
- **Row filters (lines 84-95).** Module `Screening` covers the duplicate, missing-value, completeness and release filters.
- **Finishing (lines 97-151).** Module `Layout` holds the target column lists. Module `Finishing` covers the credits columns, the projection, the zero fill and the ROI/profit metrics.
- **The whole transform.** Module `Cleaning` states `process_data` end to end. It proves these guarantees of the cleaned table:
  - where every output row comes from;
  - that every kept input row appears;
  - distinct ids;
  - consistent metrics;
  - the rating and placeholder rules.
- **Analysis.** Module `Ranking` covers `rank_movies`, its ten calls and the two searches. Module `Aggregation` covers the franchise flag, the two group-by tables and `analyze_movies` itself. `analyze_movies` is a method of the class `MovieTable`, because it adds `is_franchise` to the caller's table in place.

The written specification of the system and its code differ in four places. The model follows the code:

- **Tie order.** The specification asks for ties broken by original row order. `sort_values` is called with its default algorithm, which is not stable. The model sorts with a stable insertion sort but claims no tie order.
- **Completeness.** The specification says every cleaned row has at least ten known fields. The code applies `dropna(thresh=10)` at line 90, over all columns then present. That is before `status` is dropped, before the projection of line 131 and before the fill of lines 137-138. The model therefore states the threshold about the row at line 90 (`Screening.Kept`), not about the output row.
- **Zero means unknown.** The specification says a zero budget or revenue stays unknown. Lines 137-138 fill the unknown amounts with 0 before ROI and profit are computed, and that 0 is what the output holds. The model states that the amount is missing at line 71 (`Normalize.MoneyInMillions`) and filled afterwards (`Finishing.FinishedMetrics`).
- **Missing director name.** The specification says `director` is "" when there is no match. `get_director` returns `crew.get('name')`, which is None for a director entry without a name. The model gives `Missing` there.

## Model

| member | source | states |
|---|---|---|
| Text.SplitJoin | src/process_data.py:33 | Splitting a pipe-join of names that hold no pipe gives the names back: the join loses nothing |
| Text.JoinContainsPart | src/process_data.py:117 | Every name of a pipe-joined list is found by a substring search for that name |
| Frames.Without | src/process_data.py:26 | `drop(columns=...)` keeps exactly the columns not dropped, in their order, without repeats |
| Frames.AppendMissing | src/process_data.py:55-56 | Assigning new columns one after another keeps the old columns first and adds each new one once |
| Frames.Present | src/process_data.py:130 | `[c for c in target if c in cols]` holds exactly the targets present, in target order |
| Frames.DropColumns | src/process_data.py:71 | Dropping columns removes those cells from every row and keeps the number and order of rows |
| Frames.SetColumn | src/analysis.py:96 | `df[c] = f(row)` sets `c` in every row to `f` of that row, appending the column when it is new |
| Frames.Select | src/process_data.py:131 | `df[cols]` has exactly the listed columns, in the listed order, each row keeping its cells there |
| Frames.Filter | src/process_data.py:94 | A boolean mask keeps a sub-multiset of the rows, all of which satisfy the mask |
| Frames.FilterMembers | src/process_data.py:94 | A row is in the masked table exactly when it was in the table and satisfies the mask |
| Frames.FilterKeepsDistinct | src/process_data.py:86-94 | Masking rows keeps the values of a column pairwise distinct |
| Normalize.NamesMember | src/process_data.py:33 | A name is extracted exactly when some list entry is an object whose `name` is that text |
| Normalize.NamesAppend | src/process_data.py:33 | Names come out in list order: the names of two lists in a row are the names of the first, then of the second |
| Normalize.ExtractNamesSplits | src/process_data.py:30-34 | Splitting `extract_names` of a list at the pipe gives the entries' names in list order |
| Normalize.ColumnListsDistinct | src/process_data.py:36-78 | The JSON, numeric, zero-as-missing and text column lists name each column once |
| Normalize.FlattenedCell | src/process_data.py:37-43 | After the JSON loop has handled some columns, each of those holds its flattened value and every other cell is unchanged |
| Normalize.CoercedCell | src/process_data.py:55-56 | After the numeric loop has handled some columns, each holds its coerced value (0 when the column was absent) and no other cell changes |
| Normalize.ZeroedCell | src/process_data.py:62-64 | After the zero loop has handled some columns, each holds its value with 0 made missing and no other cell changes |
| Normalize.TextCell | src/process_data.py:78-80 | After the text loop has handled some columns, each present one holds its value with placeholders made missing and no other cell changes |
| Normalize.MillionsCell | src/process_data.py:67-68 | `budget_musd`/`revenue_musd` hold the zero-cleaned amount divided by one million |
| Normalize.ParsedKeys | src/process_data.py:25-59 | After line 59 a record has its raw columns minus the irrelevant ones, plus every numeric column |
| Normalize.ParsedJson | src/process_data.py:37-43 | After line 59 a JSON column holds the flattened raw value |
| Normalize.ParsedNumeric | src/process_data.py:54-56 | After line 59 each numeric column holds the coerced raw value, or 0 when the raw record had no such column |
| Normalize.ParsedDate | src/process_data.py:59 | After line 59 `release_date` holds the parsed raw date |
| Normalize.ParsedCopied | src/process_data.py:23-59 | Lines 23-59 copy every other surviving column unchanged |
| Normalize.SanitisedKeys | src/process_data.py:62-80 | Lines 62-80 add the two millions columns and remove `budget` and `revenue`, and nothing else |
| Normalize.SanitisedRating | src/process_data.py:74-75 | The average follows the vote rule and the vote count is kept |
| Normalize.SanitisedRuntime | src/process_data.py:62-64 | `runtime` holds its value with 0 made missing |
| Normalize.SanitisedMoney | src/process_data.py:62-71 | Each millions column holds the zero-cleaned amount in millions |
| Normalize.SanitisedText | src/process_data.py:78-80 | `overview` and `tagline` hold their value with placeholders made missing |
| Normalize.SanitisedCopied | src/process_data.py:62-80 | Lines 62-80 leave every column they do not compute unchanged |
| Normalize.NormalizedKeys | src/process_data.py:23-80 | A normalised record is keyed exactly by the normalised column list |
| Normalize.NormalizedJson | src/process_data.py:30-43 | A JSON column of the normalised record holds the pipe-joined names, or the collection's name, of the raw value |
| Normalize.MoneyInMillions | src/process_data.py:62-71 | A zero or missing budget/revenue gives a missing `*_musd` value, any other amount is divided by one million, and the raw column is gone |
| Normalize.RuntimeZeroMissing | src/process_data.py:62-64 | A runtime of 0 becomes missing; any other coerced runtime is kept |
| Normalize.RatingSanitised | src/process_data.py:74-75 | With no votes the average is 0; otherwise the average is the coerced raw average |
| Normalize.PlaceholdersMissing | src/process_data.py:78-80 | `overview`/`tagline` is missing exactly when the raw text was missing, "No Data" or "", and otherwise equals the raw text |
| Normalize.NormalizedCopies | src/process_data.py:23-80 | Every surviving column the transform does not compute is copied unchanged |
| Credits.FirstDirector | src/process_data.py:109-112 | A crew list without a director entry gives "" |
| Credits.FirstDirectorIsFirstMatch | src/process_data.py:109-111 | The director is the name of the first crew entry whose job is Director |
| Credits.DirectorOfCredits | src/process_data.py:107-112 | `get_director` gives "" for a non-object or a record without crew, "" without a director, and otherwise the first director's name |
| Credits.TopCast | src/process_data.py:117 | `[:5]` keeps the first five entries, or all of them when there are fewer |
| Credits.CastNames | src/process_data.py:117 | The shown names are the names of the first at most five cast entries, in order |
| Credits.CastShowsTopNames | src/process_data.py:115-118 | Each of the first five cast names can be found in the `cast` text |
| Credits.CastSplitsBack | src/process_data.py:115-118 | Splitting the `cast` text at the pipe gives back the first five names in order |
| Credits.SizeOf | src/process_data.py:124-125 | A size is a non-negative count: 0 for a non-object or an absent key, the full list length otherwise |
| NormalizeColumns.NormalizedWellFormed | src/process_data.py:23-80 | The normalised rows are keyed exactly by the normalised column list |
| NormalizeColumns.Normalized | src/process_data.py:23-80 | Lines 23-80 fail exactly when a list entry breaks `extract_names`, when `value_counts` cannot hash a flattened collection (a `name` that is a list or an object), or when `release_date` is absent, in that order; otherwise every row is the reference normalisation of its raw row, in order |
| NormalizeColumns.NamesOkAfterDrop | src/process_data.py:25-50 | Dropping the irrelevant columns does not change whether `extract_names` or the `value_counts` of the collections fails |
| NormalizeColumns.FlattenColumn | src/process_data.py:38-43 | One pass of the JSON loop: fails exactly when a list cell of that column breaks `extract_names`, else rewrites that column in every row |
| NormalizeColumns.FlattenJson | src/process_data.py:37-43 | The JSON loop fails exactly when some list entry breaks `extract_names`; otherwise each row is the flattened raw row |
| NormalizeColumns.CoerceNumeric | src/process_data.py:54-56 | The numeric loop appends the absent numeric columns and coerces every numeric cell |
| NormalizeColumns.ZeroAsMissing | src/process_data.py:62-64 | The zero loop makes 0 missing in budget, revenue and runtime of every row |
| NormalizeColumns.ToMillions | src/process_data.py:66-71 | Lines 66-71 add the two millions columns to every row and drop the raw amounts |
| NormalizeColumns.ZeroUnvotedRatings | src/process_data.py:73-75 | Line 75 applies the vote rule to every row and keeps the columns |
| NormalizeColumns.ReplacePlaceholders | src/process_data.py:77-80 | The text loop blanks the placeholders of every row and keeps the columns |
| NormalizeColumns.InspectColumns | src/process_data.py:46-50 | The inspection loop raises exactly when a present JSON column holds a cell that cannot be hashed, naming the first such column |
| NormalizeColumns.FlattenedHashable | src/process_data.py:37-50 | After flattening, the list-valued JSON columns always hash, and the collection column hashes exactly when every raw collection's name does |
| NormalizeColumns.ParseColumns | src/process_data.py:23-59 | Lines 23-59 fail with the names error of line 43, the unhashable collection of line 50 or the missing `release_date` of line 59, exactly when and in the order the code raises them; otherwise each raw row gets its parsed form |
| NormalizeColumns.SanitiseColumns | src/process_data.py:61-80 | Lines 61-80 give each row its sanitised form and the documented column list |
| NormalizeColumns.NormalizeColumns | src/process_data.py:23-80 | The column-by-column loops produce exactly the row-wise reference table, errors included |
| Screening.Dedup | src/process_data.py:84 | `drop_duplicates` keeps a sub-multiset of the rows, never more than it was given |
| Screening.DedupDistinct | src/process_data.py:84 | After `drop_duplicates(subset='id')` the ids are pairwise distinct |
| Screening.DedupOnlyFirst | src/process_data.py:84 | Every kept row is the first row carrying its id |
| Screening.DedupKeepsFirst | src/process_data.py:84 | The first row carrying an id is kept |
| Screening.DedupKeepsEveryValue | src/process_data.py:84 | Every id of the input still has a row |
| Screening.Deduplicated | src/process_data.py:84 | Deduplication keeps the columns and only input rows |
| Screening.Identified | src/process_data.py:86 | `dropna(subset=['id', 'title'])` keeps the columns |
| Screening.PresentCount | src/process_data.py:90 | The count of present cells is at most the number of columns |
| Screening.Thresholded | src/process_data.py:90 | `dropna(thresh=10)` keeps the columns |
| Screening.ReleasedOnly | src/process_data.py:93-95 | The status filter removes the `status` column, and only it |
| Screening.Screen | src/process_data.py:84-95 | Lines 84-95 fail exactly when `title` is absent; otherwise the columns lose `status` only |
| Screening.PassesIn | src/process_data.py:84-90 | A row that is first with its id, has an id and a title, and has ten present cells survives line 90 |
| Screening.InPasses | src/process_data.py:84-90 | Every row surviving line 90 is such a row |
| Screening.ScreenOnlyKept | src/process_data.py:84-95 | Every row after line 95 is a kept input row (first with its id, id and title present, ten present cells, released) without `status` |
| Screening.ScreenKeepsKept | src/process_data.py:84-95 | Every kept input row appears after line 95, without `status` |
| Screening.ScreenDistinctIds | src/process_data.py:84-95 | After line 95 the ids are pairwise distinct |
| Layout.CreditedColumns | src/process_data.py:120-125 | The credits step adds exactly director, cast, cast_size and crew_size to the columns |
| Layout.CreditStepColumns | src/process_data.py:105-127 | The credits columns are added exactly when `credits` is a column |
| Layout.FinalColumns | src/process_data.py:130 | The final columns are the targets that are present, in target order, without repeats |
| Layout.KeptFacts | src/process_data.py:130-151 | The kept columns hold both amounts and no status, roi or profit, so appending the metrics repeats nothing |
| Finishing.CreditStep | src/process_data.py:105-125 | The credits step adds the four credits columns exactly when `credits` exists |
| Finishing.CalculateRoi | src/process_data.py:141-147 | With a positive budget, ROI times budget is revenue; otherwise ROI is 0 |
| Finishing.FinishRow | src/process_data.py:97-151 | A finished row has the kept columns and the two amounts and two metrics |
| Finishing.FillAmounts | src/process_data.py:137-138 | The fill adds or keeps exactly the two amount columns |
| Finishing.WithMetrics | src/process_data.py:149-151 | The metric step adds exactly roi and profit |
| Finishing.FinishRowKeys | src/process_data.py:130-151 | A finished row is keyed exactly by the final columns followed by roi and profit |
| Finishing.Finish | src/process_data.py:97-151 | Lines 97-151 fail exactly when a credits helper raises; otherwise the columns are the final list plus the metrics and every row is finished in place |
| Finishing.FinishedFrom | src/process_data.py:97-151 | Every finished row is the finishing of some input row |
| Finishing.FinishedMetrics | src/process_data.py:137-151 | After the fill both amounts are numbers equal to the input amount or 0, ROI is revenue over a positive budget or 0, and profit is revenue minus budget |
| Finishing.FilledAmounts | src/process_data.py:137-138 | The fill turns a missing amount into 0 and keeps a number |
| Finishing.MetricsHold | src/process_data.py:141-151 | The metric step computes consistent ROI and profit and leaves the amounts |
| Finishing.FinishedCopies | src/process_data.py:130-131 | A copied column keeps its value when kept, and is absent otherwise |
| Finishing.FinishedCredits | src/process_data.py:120-125 | With credits, the four credits columns hold `get_director`, `get_cast` and the two sizes of the row's credits |
| Finishing.CreditsCells | src/process_data.py:120-125 | The credits step writes the director, cast and sizes of the row's `credits` cell |
| Finishing.FinishedCell | src/process_data.py:130-131 | A kept column that is not computed keeps the value it had after the credits step |
| Finishing.TargetsKept | src/process_data.py:98-131 | The projection keeps both amounts and drops status; id, title and the vote columns are kept when present |
| Finishing.FinishKeepsClean | src/process_data.py:97-151 | A screened, normalised row finishes as a row with consistent metrics, id and title, no status, the vote rule and no placeholders |
| Finishing.FinishKeepsDescribed | src/process_data.py:97-151 | Finishing keeps id, title, the vote rule and the absence of placeholders and of status |
| Finishing.FinishKeepsDistinct | src/process_data.py:97-151 | Finishing keeps ids pairwise distinct |
| Finishing.AddCredits | src/process_data.py:120-125 | The four assignments give every row its credits columns and extend the column list |
| Finishing.AddMetrics | src/process_data.py:137-151 | The fill and the two metric assignments give every row filled amounts, its ROI and its profit, and append roi and profit |
| Finishing.FinishColumns | src/process_data.py:97-151 | The step-by-step finishing produces exactly the reference table, errors included |
| Cleaning.NormalizedElements | src/process_data.py:25-71 | The normalised columns are the raw ones minus the irrelevant ones, plus the numeric and millions columns, minus budget and revenue |
| Cleaning.NormalizedColumnsHold | src/process_data.py:25-71 | `title` survives normalisation exactly when it was a raw column; id, the vote columns and the millions columns always exist |
| Cleaning.NormalizedAmounts | src/process_data.py:62-71 | Both millions cells of a normalised record are numbers or missing |
| Cleaning.NormalizedSanitised | src/process_data.py:74-80 | A normalised record holds no placeholder text and no average without votes |
| Cleaning.Clean | src/process_data.py:19-153 | `process_data` raises a names error, an unhashable collection, a missing `release_date`, a missing `title` or a credits error, in that order; otherwise it returns the finished screened table |
| Cleaning.CompletedOnlyKept | src/process_data.py:84-151 | Lines 84-151 output only finishings of kept rows |
| Cleaning.CompletedKeepsKept | src/process_data.py:84-151 | Lines 84-151 output the finishing of every kept row |
| Cleaning.CleanOnlyKept | src/process_data.py:19-153 | Every cleaned row is the full transform of a raw row that was first with its id, had id and title, had ten present cells and was released |
| Cleaning.CleanKeepsKept | src/process_data.py:19-153 | Every raw row that passes the filters appears, transformed, in the cleaned table |
| Cleaning.FinishedClean | src/process_data.py:19-153 | The full transform of a kept row has consistent metrics, an id and a title, no status, the vote rule and no placeholders |
| Cleaning.CleanRows | src/process_data.py:19-153 | Every cleaned row has numeric amounts and metrics with ROI and profit following from them, an id and a title, no status, no average without votes and no placeholder text |
| Cleaning.CleanDistinctIds | src/process_data.py:84 | The cleaned ids are pairwise distinct |
| Cleaning.ProcessData | src/process_data.py:19-153 | The step-by-step transform returns exactly the reference result, errors included |
| Ranking.BeforeTotal | src/analysis.py:27 | Any two comparable cells can be ordered in either direction |
| Ranking.BeforeTransitive | src/analysis.py:27 | The sort order, with missing values last, is transitive |
| Ranking.SortBy | src/analysis.py:27 | Sorting permutes the rows |
| Ranking.SortBySorted | src/analysis.py:27 | Sorting a column of numbers and missing values orders it in the requested direction with missing values last, and permutes the rows |
| Ranking.Head | src/analysis.py:27 | `head(n)` is the first n rows, all of them when fewer, and all but the last -n when n is negative |
| Ranking.Candidates | src/analysis.py:24-25 | The filter keeps a sub-multiset of the rows: exactly the rows whose filter cell is a number at least the threshold, when a filter column is given |
| Ranking.Shown | src/analysis.py:28 | The projection shows exactly the title and the metric |
| Ranking.RankMovies | src/analysis.py:22-28 | `rank_movies` fails on an absent filter column, a filter cell it cannot compare, an absent metric or title, or a metric it cannot sort; otherwise it returns the picked rows projected on title and metric |
| Ranking.RankedFromInput | src/analysis.py:23-27 | The picked rows are a sub-multiset of the input, at most top_n, all meeting the filter |
| Ranking.RankedBest | src/analysis.py:27 | The picked rows are sorted, and each stands before every candidate left out |
| Ranking.RankMoviesSound | src/analysis.py:22-28 | The result has at most top_n rows, is sorted by the metric, and each row is the projection of an input row meeting the filter |
| Ranking.Collect | src/analysis.py:30-68 | A run of calls returns every result when none raises, and otherwise the first error |
| Ranking.RankAll | src/analysis.py:30-68 | The ten rankings return all ten results in order, or the error of the first call that raises |
| Ranking.AbsentMask | src/analysis.py:76-78 | An absent masked column is reported exactly when some masked column is absent |
| Ranking.Matching | src/analysis.py:80 | Combining masks keeps exactly the rows whose cells contain every pattern |
| Ranking.Search | src/analysis.py:76-90 | A search fails on an absent masked, metric or shown column or an unsortable metric; otherwise it holds the matching rows, sorted, projected on the shown columns |
| Ranking.SearchSorted | src/analysis.py:88 | A search result is sorted by its metric in the requested direction |
| Ranking.SearchRows | src/analysis.py:76-90 | A search result holds the projection of exactly the input rows matching every mask |
| Ranking.MasksMeaning | src/analysis.py:76-86 | A row matches every mask of a search exactly when it contains that search's genres, cast and director patterns |
| Ranking.BruceWillisSound | src/analysis.py:74-82 | Every row found is a science-fiction action film with Bruce Willis in the cast, best rated first |
| Ranking.UmaThurmanSound | src/analysis.py:84-90 | Every row found has Uma Thurman in the cast and Quentin Tarantino as director, shortest first |
| Ranking.JoinedNameMatches | src/analysis.py:75-78 | A name in a pipe-joined cell matches the mask for that name |
| Aggregation.FlagFranchises | src/analysis.py:96 | The flag fails exactly when `belongs_to_collection` is absent; otherwise every row gains `is_franchise`, the truthiness of its collection |
| Aggregation.CollectionFlag | src/process_data.py:41 | A flattened collection flags a franchise film exactly when the raw value is an object whose name is truthy; a null name flattens to a missing cell, which is not a franchise |
| Aggregation.FlagOfName | src/analysis.py:96 | On a cleaned row, a film is a franchise film exactly when its collection name is not empty, and no other cell changes |
| Aggregation.GroupRows | src/analysis.py:113 | A group holds exactly the rows carrying its key |
| Aggregation.GroupIntoKeys | src/analysis.py:127 | The one-pass grouping has an entry for every present key and no other |
| Aggregation.GroupIntoValues | src/analysis.py:127-131 | The one-pass grouping gives each key the fold of that key's group on its own |
| Aggregation.GroupBySpec | src/analysis.py:113-131 | `groupby` has one entry per key present, holding the aggregate of that key's rows |
| Aggregation.TitleCount | src/analysis.py:114 | `'title': 'count'` counts exactly the rows of the group whose title is present |
| Aggregation.FranchiseFold | src/analysis.py:113-118 | The franchise aggregate of a group is its count of titled rows and its budget and revenue sums |
| Aggregation.DirectorFold | src/analysis.py:127-131 | The director aggregate of a group is its count of titled rows and its revenue sum |
| Aggregation.FranchiseTable | src/analysis.py:113-119 | The franchise table fails exactly when an aggregated column is absent, naming an absent one, or else when a franchise row's collection cannot be hashed |
| Aggregation.FranchiseTableSpec | src/analysis.py:113-119 | `franchise_df` has one entry per collection of a franchise row, with its count of titled franchise films and their budget and revenue sums |
| Aggregation.DirectorTable | src/analysis.py:127-135 | The director table fails exactly when an aggregated column is absent, or else when a director cannot be hashed, and otherwise has no "" entry |
| Aggregation.DirectorTableSpec | src/analysis.py:127-135 | `director_df` has one entry per director named in some row other than "", with the count of their titled films and their revenue sum |
| Aggregation.FlaggedFranchiseKeys | src/analysis.py:96-119 | After flagging, the franchise table's keys are exactly the truthy collection values of the table |
| Aggregation.RankedColumns | src/analysis.py:30-68 | Once the rankings pass, title and the six metric columns exist |
| Aggregation.SearchedColumns | src/analysis.py:86 | Once the second search passes, `director` exists |
| Aggregation.FlaggedKeys | src/analysis.py:96-113 | After the flag, the franchise group keys hash exactly when every truthy collection of the table does |
| Aggregation.FlaggedDirectors | src/analysis.py:96-127 | The flag does not change whether the directors hash |
| Aggregation.AggregationsDefined | src/analysis.py:96-135 | Once the rankings, the searches and the flag pass, every column the three aggregations read exists, so their column lookups raise no `KeyError`; each group-by fails exactly when one of its keys cannot be hashed |
| Aggregation.Analyze | src/analysis.py:16-140 | `analyze_movies` fails exactly when a ranking or a search raises, the collection column is absent, a truthy collection cannot be hashed (line 113) or a director cannot be hashed (line 127), in that order; the `KeyError`s of the column lookups in lines 98-135 cannot occur once the earlier steps succeed |
| Aggregation.MovieTable.constructor | src/analysis.py:16 | The table holds the frame the caller passes |
| Aggregation.MovieTable.AnalyzeMovies | src/analysis.py:16-140 | `analyze_movies` returns the reference result, and the caller's table gains `is_franchise` exactly when line 96 runs; otherwise it is unchanged |

## Left out

- File loading and saving are not modelled: `load_raw_data` and `save_processed_data` (src/process_data.py:6-17, 155-162) and `load_processed_data` (src/analysis.py:5-14). They are file I/O. The CSV round trip, which turns "" into NaN, goes with them.
- Console output is not modelled: what the inspection loop of src/process_data.py:45-50 prints (its `TypeError` on a cell that cannot be hashed is modelled) and the `print` calls of `analyze_movies`. This includes the top-five sorts that are only printed (src/analysis.py:121, 138).
- The parsing rules of `pd.to_numeric` and `pd.to_datetime` are not modelled. They are the `Parsers` parameter: a missing cell stays missing, a number stays a number, a date stays a date, and every other cell is handed to the parser.
- Floating point is not modelled. Amounts, ROI and profit are exact reals, so division by one million and `revenue / budget` are exact.
- `reset_index(drop=True)` (src/process_data.py:134) is not modelled. A table here has no index; rows are identified by position.
- `Aggregation.Analyze`: `franchise_stats` (src/analysis.py:98-104) holds only means and a median, which are not modelled. The model states only that the columns it reads exist.
- `Aggregation.Analyze`: the `TypeError`s that the means, medians and sums of src/analysis.py:98-130 raise on a non-numeric cell are not modelled; the model's totals read a non-numeric cell as 0.
- `Aggregation.FranchiseTable`: the `mean_budget`, `mean_revenue` and `mean_rating` columns are not modelled, only the count and the two sums.
- `Aggregation.DirectorTable`: the `mean_rating` column is not modelled, only the count and the sum.
- `Aggregation.GroupBySpec`: a group table is a map from key to aggregate. The sorted order of the pandas group index is not modelled.
- `Ranking.SortBy`: no tie order is stated, because `sort_values` with its default algorithm is not stable.
- `Ranking.RankMovies`: a text cell in a filter or metric column is reported as `NotComparable`. The pandas outcome for mixed text and number columns depends on the column's dtype and is not modelled further.
- `Ranking.Search`: `str.contains` is modelled as a plain substring test. The patterns used (`Science Fiction`, `Action`, `Bruce Willis`, `Uma Thurman`, `Quentin Tarantino`) contain no regular-expression metacharacters. Using `.str` on a column that holds no text at all, which pandas rejects, is not modelled.
- `Aggregation.Truthy`: a missing cell is falsy, as the `None` of a null collection name (src/process_data.py:41) is. A NaN, which Python treats as truthy, reaches the collection column only through the CSV round trip of `load_processed_data`, which is not modelled.
- `Ranking.Shown`: with the metric "title", pandas shows the title column twice; the model shows it once. None of the ten rankings of src/analysis.py:32-68 passes "title".
- `Aggregation.FranchiseFold`: a sum skips cells that are not numbers. In the cleaned table the amounts are always numbers.
