# SmartTrav recommender core in Dafny

SmartTrav recommends tourist spots and dining places for a searched
location. It ranks them by the sentiment of their visitors' reviews. This
project models the two classes that do that work and proves what they
promise:

- `TourismRecommender` (`recommendation_system.py`):
  - cleans each input table to the canonical columns `Place`, `Location`
    and `Review`;
  - keeps the rows of the sentiment analyzer's top places and stamps each
    place's score on them;
  - answers a location query with the best places of each kind;
  - converts a score into a star rating and formats the results.
- `SentimentAnalyzer` (`sentiment_model.py`):
  - turns review polarity into a score in [0, 1];
  - accumulates the scores per place;
  - returns the best places by mean score.

The modules follow the program's structure:

| module | file | what it holds |
|---|---|---|
| `Wrappers` | `wrappers.dfy` | `Option` and `Result` |
| `Text` | `text.dfy` | ASCII `lower`, `strip`, `title` and substring search, with their idempotence lemmas |
| `Stats` | `stats.dfy` | sum and mean, with bounds |
| `Ordering` | `ordering.dfy` | `sorted(..., reverse=True)` as a stable descending insertion sort: permutation, order, stability, distinctness |
| `Tables` | `tables.dfy` | a DataFrame as an ordered list of labelled columns of nullable string cells, and the normalised `Record` |
| `Schema` | `schema.dfy` | `_clean_dataframe` |
| `Sentiment` | `sentiment.dfy` | the `SentimentAnalyzer` class and the functions that specify it |
| `Recommender` | `recommender.dfy` | `_process_dataframe`, `_get_top_recommendations`, `get_recommendations`, formatting, and the `TourismRecommender` class |

How the model is built:

- **The analyzer is a class.** Its `place_sentiments` dictionary is a
  field that the methods reassign.
- **Each method is proved against a function.** The ensures clause ties
  the method's result or new state to a function of its inputs:
  - `GetTopPlaces` against `TopPlaces`;
  - `AnalyzeReviews` against `ScoreRows`;
  - `TopRecommendations` against `Ranked`;
  - `CleanDataframe` against `Normalize`.
- **The lemmas are about those functions.**
- **The VADER scorer is a parameter.** `polarity: string -> Option<real>`
  is a constant field of the analyzer, where `None` stands for a scorer
  that raises.

Three consequences of the code are proved rather than assumed:

- **Back-fill is dead.** The back-fill loop of `_get_top_recommendations`
  (lines 200-213) can never add an entry (`BackFillDead`). The first loop
  only ends short of `top_n` after taking every place of the filtered
  table, and every row of a processed table already carries a score.
- **A location has at most three places.** A processed table holds only
  the analyzer's top three places of its category, across all locations
  (`ProcessedPlaces`, `PlacesAtLocation`).
- **Normalising is idempotent.** Normalising an already normalised table
  changes nothing (`NormalizeIdempotent`).

Where the source's own comments promise more than its code does, the model
follows the code:

- **Length.** The comment on `recommendation_system.py:218` promises
  exactly `top_n` results. The code returns fewer when the location has
  fewer places (`RankedSpec`, `RankedComplete`).
- **Rating.** The comments on `recommendation_system.py:232-233` promise a
  rating between 1 and 5 for scores in [0, 1]. The code does not clamp; it
  is in [1, 5] exactly because scores are (`SentimentToRating`).
- **Fallback score.** `row.get('sentiment_score', 0.5)` on
  `recommendation_system.py:210` suggests that the back-fill meets
  unscored places. It never runs (`BackFillDead`).

## Model

| member | source | states |
|---|---|---|
| Schema.DropUnnamed | recommendation_system.py:36 | keeps exactly the columns whose label does not start with `Unnamed` |
| Schema.DropUnnamedAppend | recommendation_system.py:36 | dropping distributes over concatenation and keeps or drops a single column, so the kept columns keep their order and multiplicity |
| Schema.Rename | recommendation_system.py:39-55 | a label is either left alone or becomes one of `Place`, `Location`, `Review` |
| Schema.ExampleLabelRenamed | recommendation_system.py:44-55 | a column labelled `city` is relabelled `Location` |
| Schema.MappedLabels | recommendation_system.py:36-55 | relabelling keeps the kept columns in order with their cells, each under the lowered, stripped and renamed label, and every resulting label is fixed under relabelling |
| Schema.Mapped | recommendation_system.py:36-55 | definition: the table after dropping `Unnamed` columns, lower-casing and stripping labels, and renaming synonyms; its contract is `MappedLabels` |
| Schema.RenamedLabelFixed | recommendation_system.py:52-55 | a lowered, stripped and renamed label is unchanged by lowering, stripping and renaming again, and never starts with `Unnamed` |
| Schema.FirstSuggestingFinds | recommendation_system.py:65-80 | the fallback finds a source column exactly when some label contains one of the substrings listed for the missing column |
| Schema.FirstSuggesting | recommendation_system.py:68-80 | a picked column is one of the columns and its label contains a substring listed for the missing label |
| Schema.FirstSuggestingIsFirst | recommendation_system.py:68-80 | the fallback copies the first column, in column order, whose label contains a listed substring |
| Schema.CanonicalSuggestsNothing | recommendation_system.py:66-80 | no canonical label contains a substring listed for any missing column, so a copied column never serves as a later source |
| Schema.FirstSuggestingAppend | recommendation_system.py:65-80 | appending columns that match no listed substring does not change which column the fallback picks |
| Schema.AddedSpec | recommendation_system.py:63-80 | the fallback adds a column for a missing label exactly when a source column exists |
| Schema.ResolveAllSpec | recommendation_system.py:63-80 | after the fallback loop the table is the relabelled columns followed by the added ones |
| Schema.ResolveAll | recommendation_system.py:63-80 | the fallback loop over the missing labels, in order, keeps the row count; its contents are `ResolveAllSpec` |
| Schema.MissingSpec | recommendation_system.py:60-61 | a label is missing exactly when it is canonical and absent |
| Schema.ResolvedNames | recommendation_system.py:59-83 | after the fallback a canonical label is present exactly when it was present or findable by substring |
| Schema.NormalizeOutcome | recommendation_system.py:59-93 | cleaning succeeds exactly when no fallback turn picks a label carried by two columns, every canonical column is resolvable and at most one relabelled column is `Location`; the first such doubled pick raises first, naming its missing label; then an unresolvable column raises, naming exactly the unresolvable ones in `Place`, `Location`, `Review` order; otherwise two `Location` columns raise at `.str`; on success all three are present and `Location` once |
| Schema.FirstAmbiguous | recommendation_system.py:63-80 | the label it names is missing and its fallback picks a label carried by two columns; it names none exactly when no missing label's fallback does |
| Schema.FirstAmbiguousAt | recommendation_system.py:63-80 | the loop raises at the first missing label, in loop order, whose fallback picks a doubled label |
| Schema.FirstAmbiguousAppend | recommendation_system.py:63-80 | over two runs of missing labels, the first raising label comes from the first run when it has one |
| Schema.AmbiguousResolved | recommendation_system.py:63-80 | earlier fallback turns append only canonical columns, so they change neither the column a later turn picks nor whether its assignment raises |
| Schema.DuplicateSourceRaises | recommendation_system.py:65-70 | two columns under one plain label that mentions a place, with `Location` and `Review` present, make the `Place` fallback raise: `df[possible_cols[0]]` selects both columns |
| Schema.DuplicateSpotNameRaises | recommendation_system.py:65-70 | labels `spot_name`, `spot_name`, `Location`, `Review` make cleaning raise for `Place` |
| Schema.ResolvedLocations | recommendation_system.py:67-80 | the fallback loop never creates a second `Location` column, so two after it means two before it |
| Schema.DuplicateLocationRaises | recommendation_system.py:88-93 | columns `Place`, `Location`, `Location`, `Review` make cleaning raise: `df['Location']` selects two columns and has no `.str` |
| Schema.Copied | recommendation_system.py:68-80 | one turn of the fallback loop adds a column labelled with the missing label exactly when a suggesting column exists, and nothing otherwise |
| Schema.CleanDataframe | recommendation_system.py:30-102 | the step-by-step cleaning returns or raises exactly what `Normalize` specifies |
| Schema.Normalize | recommendation_system.py:30-102 | definition: the returned table or the raised error; its contracts are `NormalizeOutcome`, `NormalizeClean`, `NormalizeCells`, `NormalizeLabels` and `NormalizeIdempotent` |
| Schema.NormalizeClean | recommendation_system.py:87-93 | a cleaned table has as many rows as its input, all three canonical columns, no nulls in them, and lower-cased, stripped locations |
| Schema.SourceOfResolved | recommendation_system.py:63-80 | after the fallback, the column read under a canonical label carries the cells of its own relabelled column, or else a copy of the first column whose label suggests it |
| Schema.FinishedColumns | recommendation_system.py:88-93 | the three `fillna` calls and the `Location` lowering change every column in place under its own label: a canonical column's cells become their cleaned form, every other column is unchanged |
| Schema.NormalizeCells | recommendation_system.py:63-93 | every canonical output column has one cell per row, and cell j is cell j of its source column, with a null replaced by the column's default and a `Location` lower-cased and stripped |
| Schema.CleanedCellValues | recommendation_system.py:88-93 | null cells become `Unknown Place`, `unknown` and `No review available`; present `Place` and `Review` cells are kept verbatim, present `Location` cells are lower-cased and stripped |
| Schema.Records | recommendation_system.py:88-93 | one record per row, each with a lower-cased, stripped location |
| Schema.CleanColumn | recommendation_system.py:88-93 | each canonical column of a cleaned table has one non-null cell per row, and the `Location` cells are lowered and stripped |
| Schema.NormalizeLabels | recommendation_system.py:36-80 | the output labels are the kept input labels (lowered, stripped, renamed, in order) followed only by canonical labels |
| Schema.NormalizedLabelsFixed | recommendation_system.py:36-80 | every output label is unchanged by a second cleaning's dropping and relabelling |
| Schema.FillColumnOfFilled | recommendation_system.py:88-90 | `fillna` leaves a column without nulls unchanged |
| Schema.LowerLocationOfLowered | recommendation_system.py:93 | lower-casing and stripping leaves already lowered, stripped locations unchanged |
| Schema.NormalizeIdempotent | recommendation_system.py:30-102 | cleaning a cleaned table returns it unchanged |
| Schema.SpotNameSuggestsNoReview | recommendation_system.py:78 | `spot_name` contains none of `review`, `comment`, `feedback` |
| Schema.FallbackResolved | recommendation_system.py:63-80 | with labels x, y and `Location`, where x mentions a place and y a review, the fallback appends `Place` copied from x and `Review` copied from y |
| Schema.FallbackFinished | recommendation_system.py:83-93 | after that fallback nothing is missing, and filling and lowering give the expected five columns |
| Schema.FallbackNormalized | recommendation_system.py:30-102 | whenever relabelling yields such x, y and `Location`, cleaning succeeds with x, y, the filled lowered `Location`, `Place` filled from x and `Review` filled from y |
| Schema.FallbackExample | recommendation_system.py:30-102 | labels `spot_name`, `feedback` and `city` clean to `Place` from `spot_name`, `Review` from `feedback` and `Location` from `city`, keeping both source columns |
| Text.LowerStripIdempotent | recommendation_system.py:52 | `.lower().strip()` applied twice equals once |
| Text.LowerStripHasNoUpper | recommendation_system.py:52 | `.lower().strip()` leaves no upper-case letter |
| Text.StripOfStripped | recommendation_system.py:52 | `strip` is idempotent |
| Text.LowerOfTitle | recommendation_system.py:224 | `title()` changes only letter case |
| Text.TitleIdempotent | recommendation_system.py:224 | `title()` applied twice equals once |
| Stats.MeanBounds | sentiment_model.py:51 | the mean of values within [lo, hi] is within [lo, hi] |
| Stats.MeanOfConstant | sentiment_model.py:51 | the mean of equal values is that value |
| Ordering.SortDescSpec | sentiment_model.py:55-57 | sorting by key in reverse yields a permutation, in non-increasing key order, keeping input order among equal keys |
| Ordering.SortDescDistinct | sentiment_model.py:55-57 | sorting keeps elements distinct under any projection |
| Ordering.SortDescMembers | sentiment_model.py:55-57 | sorting keeps exactly the input's elements |
| Sentiment.Normalized | sentiment_model.py:32 | the score s satisfies 2s - 1 = compound, and lies in [0, 1] when compound lies in [-1, 1] |
| Sentiment.Analyze | sentiment_model.py:25-32 | a score exists exactly when the text is a string and the scorer succeeds; it is the normalised compound, in [0, 1] |
| Sentiment.Predicted | sentiment_model.py:22-42 | the returned score is in [0, 1], and it is the neutral 0.5 for a non-string or on a scorer error |
| Sentiment.Append | sentiment_model.py:36 | appending to a place's list extends that list by the score, leaves every other list unchanged, and adds the key once, at the end |
| Sentiment.SentimentAnalyzer.constructor | sentiment_model.py:9-20 | a new analyzer holds the given scorer and an empty dictionary |
| Sentiment.SentimentAnalyzer.PredictSentiment | sentiment_model.py:22-42 | returns the predicted score and stores it under the place only when it was computed and the place name is truthy |
| Sentiment.SentimentAnalyzer.GetTopPlaces | sentiment_model.py:44-77 | returns exactly `TopPlaces` of the given dictionary |
| Sentiment.SentimentAnalyzer.ResetSentiments | sentiment_model.py:79-81 | the dictionary becomes empty |
| Sentiment.SentimentAnalyzer.AnalyzeReviews | sentiment_model.py:83-102 | the dictionary becomes the scores of all rows with a truthy place and review, in order, and the result is its top three places |
| Sentiment.RecordedTidy | sentiment_model.py:34-36 | storing a score keeps keys distinct, every stored list non-empty and every score in [0, 1] |
| Sentiment.Recorded | sentiment_model.py:34-36 | definition: the dictionary after `predict_sentiment`, appending the score only when there is one and the place name is truthy; its contracts are `PredictSentiment` and `RecordedTidy` |
| Sentiment.ScoreRowsTidy | sentiment_model.py:86-96 | the same holds after analysing any rows |
| Sentiment.ScoreRowsLists | sentiment_model.py:86-96 | each place's stored list equals the independent per-place reading: the scores of that place's considered, scorable rows, in order |
| Sentiment.ScoreRowsKeys | sentiment_model.py:86-96 | a place is a key exactly when one of its rows yields a score |
| Sentiment.ScoreRows | sentiment_model.py:86-95 | definition: the dictionary after `analyze_reviews`, reset and then fed every considered row in order; its contracts are `ScoreRowsTidy`, `ScoreRowsLists` and `ScoreRowsKeys` |
| Sentiment.AveragesMembers | sentiment_model.py:48-52 | the averages are exactly the keyed places with a non-empty list, each with the mean of its list |
| Sentiment.AveragesDistinct | sentiment_model.py:48-52 | the averages name each place once |
| Sentiment.Averages | sentiment_model.py:48-52 | definition: the mean of every non-empty list in key order; its contracts are `AveragesMembers` and `AveragesDistinct` |
| Sentiment.TakeTopPrefix | sentiment_model.py:60-71 | over distinct names the selection loop keeps a prefix of the sorted averages, as long as the limit allows |
| Sentiment.TakeTop | sentiment_model.py:60-71 | definition: the selection loop that skips seen names and stops at `n` places; its contract is `TakeTopPrefix` |
| Sentiment.TopPlacesPrefix | sentiment_model.py:44-73 | the top places are the first `min(n, count)` sorted averages, or all of them when `n <= 0` |
| Sentiment.TopPlaces | sentiment_model.py:44-73 | definition: `get_top_places`' result; its contracts are `TopPlacesPrefix`, `TopPlacesSpec`, `TopPlacesComplete`, `TopPlacesStable` and `TopPlacesInUnit` |
| Sentiment.TopPlacesSpec | sentiment_model.py:44-73 | at most `n` places (every place when `n <= 0`), distinct names, scores never increasing, each a stored place with its mean score |
| Sentiment.TopPlacesComplete | sentiment_model.py:54-71 | a scored place left out was cut because `n` places scoring at least as well were already taken |
| Sentiment.TopPlacesStable | sentiment_model.py:55-57 | places with equal scores keep their dictionary order |
| Sentiment.TopPlacesInUnit | sentiment_model.py:44-73 | every top score lies in [0, 1] |
| Recommender.Kept | recommendation_system.py:113-116 | keeps exactly the rows whose place is a top place |
| Recommender.KeptAppend | recommendation_system.py:113-116 | filtering distributes over concatenation and keeps or drops a single row, so the kept rows keep their order and multiplicity |
| Recommender.ScoreFor | recommendation_system.py:119-121 | a row is stamped exactly when its place is among the top places |
| Recommender.ScoreForDistinct | recommendation_system.py:119-121 | with distinct top names, a place's stamp is its own score |
| Recommender.StampRows | recommendation_system.py:119-121 | the stamping loop produces exactly the stamped rows `Stamp` specifies |
| Recommender.Stamp | recommendation_system.py:119-121 | definition: each kept row with the score `ScoreFor` gives its place; its contracts are `StampRows` and `ProcessedSpec` |
| Recommender.TourismRecommender.ProcessDataframe | recommendation_system.py:104-130 | runs the analyzer on the records and returns exactly `ProcessedOf` them |
| Recommender.ProcessedSpec | recommendation_system.py:110-123 | the processed rows are the kept records, in order, each carrying the mean of its place's stored scores |
| Recommender.ProcessedOf | recommendation_system.py:104-126 | definition: `_process_dataframe`'s result; its contracts are `ProcessedSpec`, `ProcessedKeeps`, `ProcessedPlaces` and `ProcessedInUnit` |
| Recommender.ProcessedKeeps | recommendation_system.py:110-116 | a record appears in the processed table exactly when its place is one of the analyzer's top three |
| Recommender.ProcessedPlaces | recommendation_system.py:110-116 | the places of a processed table are among the analyzer's top places, of which there are at most three |
| Recommender.PlacesAtLocation | recommendation_system.py:110-116 | the rows of a processed table at any one location name at most three places |
| Recommender.ProcessedInUnit | recommendation_system.py:119-121 | every stamped score lies in [0, 1] |
| Recommender.CleanRecords | recommendation_system.py:16-17 | a cleaned table yields one record per row, with lowered, stripped locations |
| Recommender.CleanRecordsCells | recommendation_system.py:63-93 | record i carries row i's `Place`, `Location` and `Review` cells, each read from the relabelled column or the fallback's source column, with its null default filled in and the location lowered and stripped |
| Recommender.TourismRecommender.constructor | recommendation_system.py:18-22 | processes the dining table, then the spots table, with the shared analyzer |
| Recommender.TourismRecommender.Create | recommendation_system.py:9-28 | raises the dining table's cleaning error first, then the spots table's; otherwise builds a recommender from both processed tables |
| Recommender.Where | recommendation_system.py:144-145 | keeps exactly the rows whose column holds the value (a location here, a place for each `groupby` group) |
| Recommender.WhereAppend | recommendation_system.py:170-174 | selecting distributes over concatenation and keeps or drops a single row, so a group keeps its rows' order (its first row) and multiplicity (the scores its mean counts) |
| Recommender.TourismRecommender.GetRecommendations | recommendation_system.py:132-157 | both lists are the rankings of the rows at the lowered, stripped location; every entry carries that location and a score in [0, 1] |
| Recommender.PlaceOrder | recommendation_system.py:170-174 | lists every place of the table exactly once |
| Recommender.GroupsSpec | recommendation_system.py:170-174 | exactly one group per place of the table, each the place's `GroupOf` |
| Recommender.GroupOf | recommendation_system.py:170-174 | a group carries its own place name; its values are stated by `GroupOfFirst`, `GroupOfAt` and `GroupOfUniform` |
| Recommender.GroupOfFirst | recommendation_system.py:170-174 | a group takes the location and review of the place's first row in table order (`'first'`) and scores the mean over all the place's rows (`'mean'`) |
| Recommender.FirstRow | recommendation_system.py:170-174 | the index of a place's first row: it holds the place and no earlier row does |
| Recommender.WhereFirst | recommendation_system.py:170-174 | the first row selected for a place is the place's first row in the table |
| Recommender.Groups | recommendation_system.py:170-174 | definition: one group per place in order of first appearance; its contract is `GroupsSpec` |
| Recommender.GroupOfUniform | recommendation_system.py:170-174 | a group whose rows all carry the same score has that score as its mean |
| Recommender.SortedGroupsSpec | recommendation_system.py:170-177 | the sorted groups name every place once, in non-increasing score order |
| Recommender.PickRankedPrefix | recommendation_system.py:180-198 | over distinct names the first loop takes a prefix of what is left, at least one entry |
| Recommender.PickedPrefix | recommendation_system.py:180-198 | the first loop takes the first `top_n` sorted groups (at least one) |
| Recommender.PickRanked | recommendation_system.py:180-198 | definition: the first loop, appending unseen places and stopping once `top_n` are held; its contracts are `PickRankedPrefix` and `PickedPrefix` |
| Recommender.UnseenOfSeen | recommendation_system.py:202 | nothing remains once every place is seen |
| Recommender.BackFillDead | recommendation_system.py:200-213 | when the first loop ends short of `top_n`, no unseen place remains to back-fill |
| Recommender.Unseen | recommendation_system.py:202 | keeps exactly the rows whose place has not been seen |
| Recommender.FirstPerPlace | recommendation_system.py:202 | definition: `drop_duplicates('Place')`, the first row of every place |
| Recommender.BackFill | recommendation_system.py:203-213 | definition: the back-fill loop; `BackFillDead` shows it never receives a row |
| Recommender.TopRecommendations | recommendation_system.py:163-218 | the two loops and the final slice return exactly `Ranked` |
| Recommender.PySlice | recommendation_system.py:218 | `[:n]` is a prefix with Python's length for non-negative and negative `n` |
| Recommender.RankedPrefix | recommendation_system.py:163-218 | the ranking is the first `top_n` sorted groups, or nothing when `top_n <= 0` |
| Recommender.RankedSpec | recommendation_system.py:163-218 | at most `top_n` entries, distinct places, scores never increasing, each its place's group |
| Recommender.Ranked | recommendation_system.py:163-218 | definition: `_get_top_recommendations`' result; its contracts are `TopRecommendations`, `RankedPrefix`, `RankedSpec`, `RankedComplete` and `RankedScoresAreMeans` |
| Recommender.RankedComplete | recommendation_system.py:176-198 | a place left out was cut because `top_n` places scoring at least as well were taken |
| Recommender.GroupOfAt | recommendation_system.py:170-174 | a group of rows at one location, scored in [0, 1], keeps that location and a score in [0, 1] |
| Recommender.RankedAtLocation | recommendation_system.py:143-150 | every ranked entry at a location carries that location and a score in [0, 1] |
| Recommender.RankedScoresAreMeans | recommendation_system.py:170-174 | every place ranked at a location of a processed table scores the mean of all the scores the analyzer stored for it |
| Recommender.SentimentToRating | recommendation_system.py:230-234 | (rating - 1) / 4 is the score, so a score in [0, 1] gives a rating in [1, 5] |
| Recommender.RatingMonotone | recommendation_system.py:230-234 | a better score never gives a worse rating |
| Recommender.FormatRecommendations | recommendation_system.py:220-228 | one formatted entry per recommendation |
| Recommender.FormatSpec | recommendation_system.py:220-228 | each entry keeps the name, score and review, and a location equal up to case; ratings lie in [1, 5] and follow score order |

## Left out

- The VADER lexicon and `nltk.download` are external. The scorer is the parameter `polarity`. A scorer that raises returns `None`. Its compound score is assumed to lie in [-1, 1] (`CompoundInRange`).
- Logging is not modelled.
- The catch-all handlers of `get_top_places`, `analyze_reviews`, `get_recommendations` and `_get_top_recommendations` are not modelled. On the modelled inputs nothing raises there, with the two exceptions below: an empty processed table, and two columns that map to `Place` or to `Review`. Otherwise only the scorer can fail, and `predict_sentiment` absorbs that failure.
- Numbers are exact reals, not IEEE doubles.
- Recommender.SentimentToRating: returns `1 + 4 * score` without rounding to one decimal, because decimal rounding of doubles is not modelled.
- Recommender.FormatRecommendations: does not round the score to two decimals, for the same reason.
- Text.LowerStripIdempotent: `lower`, `strip` and `title` are modelled for ASCII letters and ASCII whitespace only. Unicode case mapping is not modelled.
- Recommender.Ranked: orders places with equal mean scores by first appearance in the table. `groupby` instead sorts place names, and `sort_values` does not guarantee a stable order, so the source's order among ties, and which tied place makes the cut, is left unclaimed.
- A `sentiment_score` column missing from an empty processed table is not modelled. In the source the resulting error is caught and gives an empty list; the model ranks an empty table to an empty list as well.
- Cells are strings or null. Non-string cells (numbers read from CSV), and the `str(...)` and `.str` conversions on them, are not modelled.
- Recommender.TourismRecommender.Create: two columns that map to `Review` are not modelled. The model reads the first such column (`ColumnNamed`). In the source `row.get('Review')` is then a Series, and its truth test at `sentiment_model.py:94` raises for the first row with a non-empty place. The handler at `sentiment_model.py:100-102` returns `[]`, so no place is kept and the processed table is empty.
- Recommender.TourismRecommender.Create: two columns that map to `Place` are not modelled either, and the model again reads the first one. In the source `row.get('Place')` is a Series whose truth test raises, so `analyze_reviews` returns `[]`. What `df[df['Place'].isin(...)]` then yields on a two-column selection is left unclaimed.
- Two columns that carry the label a fallback turn picks (say `spot_name` twice while `Place` is missing) are modelled: cleaning raises the `ValueError` of the assignment at `recommendation_system.py:70`, `:75` or `:80` (re-raised at `:100-102` and `:26-28`). See `Schema.NormalizeOutcome` and `Schema.DuplicateSourceRaises`.
- Two columns that map to `Location` are modelled: cleaning raises, as `.str` does at `recommendation_system.py:93` (re-raised at `:100-102` and `:26-28`). See `Schema.NormalizeOutcome` and `Schema.DuplicateLocationRaises`.
- Columns other than `Place`, `Location` and `Review` are dropped from processing on (`Record`), because nothing downstream reads them.
- The `pd.notnull(row['Review'])` test is not modelled: it always holds after cleaning.
- Schema.FallbackExample: starts from the relabelled table (`spot_name`, `feedback`, `Location`) and does not re-derive the relabelling of `city`; that step is `ExampleLabelRenamed`.
- The Flask app (`app.py`), the web front end and the CSV inspection and cleaning scripts are not part of this model.
