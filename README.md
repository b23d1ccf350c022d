# Rhode Island real-estate scripts: the verified glue

The repository has four command-line scripts that analyse a data set of Rhode Island property listings:

- `deal_scorer.py` scores listings with an isolation forest.
- `market_forecast.py` builds a monthly price series for Prophet.
- `similar_finder.py` appraises active listings from their nearest sold neighbours.
- `price_predictor.py` compares listed prices with a gradient-boosting regressor's predictions.

The statistical work happens inside sklearn, Prophet and pandas. This project models the sequential code around those libraries:

- the listing acceptance filter and the feature vectors;
- the `MonthName-Day-Year` date parser;
- the rescaling of forest scores to a 0-100 deal score and the in-place tagging of the property records;
- the per-city tally;
- the sold/active split, the comparable-sales appraisal written into each active record, and the deal and overpriced lists;
- the lockstep feature, price and index lists, the annotated output copies, and the deal list of the price predictor.

What each library returns becomes an input of the model:

- the forest's predictions and decision scores;
- the neighbour rows of `kneighbors` (distance and index into `sold`);
- the regressor's predictions.

Modules:

- `Wrappers` holds `Option`.
- `Numerics` models Python's `int()` on floats (truncation toward zero), `round(x, n)` (half to even) and `np.mean`, over exact reals.
- `Seqs` holds list comprehensions with a condition, and distinctness.
- `Sorting` models `list.sort(key=...)` as CPython runs it: decorate with the key, sort stably in ascending order, drop the key. The reference definition is an insertion sort.
- `Listings` holds the listing record, Python truthiness, and the acceptance filter shared by three scripts.
- `Dates` holds `parse_date`.
- `MarketForecast`, `DealScorer`, `SimilarFinder` and `PricePredictor` hold one script each.

How records are represented:

- Property dictionaries that a script updates in place are classes. Their input fields are constant and each added key is an `Option` field. These are `DealScorer.Property` and `SimilarFinder.Property`.
- Dictionaries a script copies before extending them are values: the comps of `find_similar` and the output records of the price predictor.

## Model

| member | source | states |
|---|---|---|
| Listings.AcceptedMeans | scripts/deal_scorer.py:31-36 | A record is accepted exactly when sqft, beds and price are present, beds is non-zero, 0 < sqft <= 10000 and 50000 < price <= 5000000 |
| Listings.Ppsf | scripts/deal_scorer.py:39 | The price per square foot of an accepted record exceeds 5, so it is positive |
| Seqs.Filter | scripts/deal_scorer.py:29-51 | The kept elements are elements of the input that pass the test, and every passing element is kept |
| Seqs.FilterSnoc | scripts/deal_scorer.py:29-51 | Filtering a list extended by one element extends the filtered list by that element exactly when it passes |
| Seqs.FilterMultiset | scripts/similar_finder.py:52 | A filtered list contains each element as often as the input does when the element passes, and never otherwise |
| Seqs.FilterPartition | scripts/similar_finder.py:86 | The elements passing a test and those failing it together make up the input as a multiset, their lengths add up to its length, and no element is in both |
| Seqs.FilterDistinct | scripts/deal_scorer.py:80-83 | Filtering a list without repetitions gives a list without repetitions |
| Seqs.FilterDisjoint | scripts/similar_finder.py:142-160 | For two tests no element passes both, the two filtered lists share no element and together are no longer than the input |
| DealScorer.Property.constructor | scripts/deal_scorer.py:41-43 | A new record holds the listing and none of the keys the scorer adds |
| DealScorer.SelectValid | scripts/deal_scorer.py:29-51 | `valid` has one entry per accepted record, in input order, and each entry holds the record itself, its price per square foot and its feature vector |
| DealScorer.FeaturesShape | scripts/deal_scorer.py:44-50 | A feature vector has five entries: sqft, beds, baths or 0 when that is missing or falsy, yearBuilt or 1970 likewise, and a positive price per square foot |
| DealScorer.MinOf | scripts/deal_scorer.py:76 | `scores.min()` is an element of the list and no element is smaller |
| DealScorer.MaxOf | scripts/deal_scorer.py:76 | `scores.max()` is an element of the list and no element is larger |
| DealScorer.RescaleProperties | scripts/deal_scorer.py:77 | The inverted min-max map sends [lo, hi] into [0, 100], sends lo to 100 and hi to 0, and reverses the order |
| DealScorer.Normalize | scripts/deal_scorer.py:76-77 | When the scores are not all equal, every normalised score lies in [0, 100] and there is one per decision score |
| DealScorer.NormalizeOrder | scripts/deal_scorer.py:76-77 | The lowest decision score normalises to 100, the highest to 0, and a lower decision score always gets a strictly higher normalised score |
| DealScorer.AnomalyFlag | scripts/deal_scorer.py:82 | The flag is 0 or 1, and it is 1 exactly when the forest's prediction is -1 |
| DealScorer.Tag | scripts/deal_scorer.py:80-83 | Each entry's record gets the truncated normalised score, in [0, 100], its anomaly flag and its truncated price per square foot |
| DealScorer.CalculateDealScore | scripts/deal_scorer.py:29-85 | The returned entries are the accepted records in input order, and each record now carries its deal score in [0, 100], its 0/1 anomaly flag and its integer price per square foot; the records the filter rejects are untouched |
| DealScorer.PricePerSqftBound | scripts/deal_scorer.py:83 | The integer price per square foot written into an accepted record is at least 5 |
| DealScorer.PpsfsIn | scripts/deal_scorer.py:95 | A city's list of prices per square foot has one sample per entry from that city |
| DealScorer.TotalUpdate | scripts/deal_scorer.py:94 | Changing one city's statistics changes a summed field by the difference |
| DealScorer.TotalSnoc | scripts/deal_scorer.py:92-93 | Adding a new city with its statistics adds its field to the sum |
| DealScorer.CountInPositive | scripts/deal_scorer.py:92-97 | A city has a positive count exactly when some entry comes from it, and its deals never exceed its count |
| DealScorer.TallyStep | scripts/deal_scorer.py:90-97 | One iteration of the counting loop keeps the per-city counts, the deals, the samples, the key order and both sums consistent with the entries seen so far |
| DealScorer.TallyCities | scripts/deal_scorer.py:89-97 | The keys are the cities of the entries, each listed once in `order`; each city holds its count, its number of flagged entries and its samples; the counts sum to the number of entries and the deals to the number flagged |
| DealScorer.AverageCities | scripts/deal_scorer.py:100-101 | Every city's samples are replaced by their truncated mean, and nothing else changes |
| DealScorer.AnalyzeByCity | scripts/deal_scorer.py:87-103 | The keys are exactly the cities that occur; for each city, 1 <= count, 0 <= deals <= count and the average is the truncated mean of its prices per square foot; the counts sum to len(valid) and the deals to the number of anomalies |
| DealScorer.FirstsFilter | scripts/deal_scorer.py:117-118 | Selecting unsold entries before or after dropping the keys gives the same entries |
| DealScorer.RankForSale | scripts/deal_scorer.py:117-118 | `for_sale` is a permutation of the unsold entries with their keys, sorted by non-increasing deal score |
| DealScorer.RankForSalePermutes | scripts/deal_scorer.py:117-118 | Without their keys, the ranked entries are exactly the unsold entries, as a multiset and in number |
| DealScorer.RankForSaleKeys | scripts/deal_scorer.py:117-118 | Every ranked entry is an unsold entry of `valid` carrying its own negated score |
| DealScorer.TopDeals | scripts/deal_scorer.py:124 | The shown deals are the first 15 of the ranking, or all of it when it is shorter |
| DealScorer.TopDealsBest | scripts/deal_scorer.py:117-124 | An unsold entry that is not shown means 15 are shown, and none of them has a lower deal score than it |
| Sorting.SortByKey | scripts/deal_scorer.py:118 | Sorting permutes the list and leaves it in ascending key order |
| Sorting.SortByKeyStable | scripts/deal_scorer.py:118 | Elements with equal keys keep their relative order |
| Sorting.SortByKeyFirsts | scripts/deal_scorer.py:118 | Sorting permutes the elements without their keys too |
| Sorting.PermutedNegatedFrom | scripts/similar_finder.py:159-160 | Every element of a sorted negated list is an element of the original list once its key is negated back |
| Sorting.Take | scripts/deal_scorer.py:124 | `s[:n]` is a prefix of `s` of length min(n, len(s)) |
| Numerics.Trunc | scripts/deal_scorer.py:81 | `int(x)` truncates toward zero: it is the integer next to x on the side of zero, less than 1 away |
| Numerics.RoundHalfEven | scripts/similar_finder.py:79 | The rounded value is within 0.5 of its argument, and a tie goes to the even neighbour |
| Numerics.RoundTo | scripts/similar_finder.py:79 | `round(x, n)` is a whole number of steps of 10^-n, namely the half-to-even rounding of x * 10^n, so within half a step of x, and on a tie the even multiple |
| Numerics.MeanAbove | scripts/similar_finder.py:100 | The mean of values that all exceed a bound exceeds it |
| Numerics.MeanAtMost | scripts/similar_finder.py:100 | The mean of values none of which exceeds a bound does not exceed it |
| Dates.MonthNumber | scripts/market_forecast.py:36-43 | A name has a month number exactly when it is one of the twelve English month names, matched exactly; the number is in 1..12 and names that month |
| Dates.Split | scripts/market_forecast.py:41 | `str.split('-')` gives at least one part, and no part contains the separator |
| Dates.JoinSplit | scripts/market_forecast.py:41 | Joining the parts of a split with the separator gives back the string |
| Dates.SplitJoin | scripts/market_forecast.py:41 | Splitting a join of separator-free parts gives back the parts |
| Dates.ParseIntOfDecimal | scripts/market_forecast.py:44-45 | `int()` of the decimal numeral of n gives n |
| Dates.DecimalOfDigitsValue | scripts/market_forecast.py:44-45 | A numeral without leading zeros is the decimal numeral of its value |
| Dates.LeadingDigitBound | scripts/market_forecast.py:44-45 | A one-digit numeral is below 10, a longer one without leading zeros is at least 10, and only "0" has value zero |
| Dates.DaysInMonth | scripts/market_forecast.py:46-47 | Every month has 28 to 31 days, and February has 29 exactly in Gregorian leap years |
| Dates.ParseDate | scripts/market_forecast.py:31-50 | An empty or missing string gives None; a date is returned only when the string splits into exactly three parts, the first is a month name, the other two parse as integers giving day and year, and the date exists in years 1..9999 |
| Dates.ParseFormat | scripts/market_forecast.py:31-50 | Every valid date written `MonthName-Day-Year` parses back to itself |
| Dates.FormatParse | scripts/market_forecast.py:31-50 | A date parsed from a string with canonical numerals, written back out, is that string |
| MarketForecast.SaleOf | scripts/market_forecast.py:57-68 | A listing gives a sale exactly when it is sold, its price is truthy and in [50000, 5000000], and its date parses; the sale holds that date, the price and the city or 'Unknown' |
| MarketForecast.SalesSound | scripts/market_forecast.py:55-68 | Every sale kept has a valid date, a price in [50000, 5000000], and comes from a listing of the input |
| MarketForecast.SalesComplete | scripts/market_forecast.py:55-68 | Every listing that passes the filter contributes its sale |
| MarketForecast.PrepareTimeSeries | scripts/market_forecast.py:55-71 | The loop collects the sales in input order, and the result is None exactly when there is none |
| MarketForecast.LowerBoundInclusive | scripts/market_forecast.py:59 | A sale at exactly 50000 is kept here although the shared filter rejects it |
| SimilarFinder.Property.constructor | scripts/similar_finder.py:35-36 | A new record holds the listing and none of the six keys the appraisal adds |
| SimilarFinder.FeaturesShape | scripts/similar_finder.py:37-43 | Five features: sqft/1000 in (0, 10], beds, baths or 0, (yearBuilt or 1970)/100, and lotSize/10000 when truthy, otherwise 0 |
| SimilarFinder.PrepareData | scripts/similar_finder.py:23-47 | One entry per accepted record, in input order, holding the record, its features and whether it is sold |
| SimilarFinder.SoldActivePartition | scripts/similar_finder.py:44-86 | `sold` and `active` partition `valid`: their lengths add up, together they hold every entry as often as `valid`, and no entry is in both |
| SimilarFinder.BuildKnnModel | scripts/similar_finder.py:49-68 | The model is missing exactly when fewer than 10 entries are sold; otherwise it is built on the sold entries, in order, with 10 neighbours |
| SimilarFinder.SoldAccepted | scripts/similar_finder.py:52 | Every sold entry's record is accepted and sold |
| SimilarFinder.Similar | scripts/similar_finder.py:75-80 | Comp i copies the listing the i-th neighbour names, with rank i + 1 and the distance rounded to three places, within 0.0005 |
| SimilarFinder.FindSimilar | scripts/similar_finder.py:70-82 | The loop builds the comps that `Similar` describes |
| SimilarFinder.SimilarRanks | scripts/similar_finder.py:78 | Ranks are strictly increasing in result order and lie in 1..k |
| SimilarFinder.AppraiseBounds | scripts/similar_finder.py:99-107 | The estimated value lies in [50000, 5000000], the comps' price per square foot is at least 5, the suggested price is the truncated product of that and the listing's area (zero only below 0.2 sqft), and `priceDiff` is exactly price - suggestedPrice |
| SimilarFinder.PctMeaning | scripts/similar_finder.py:108 | The percentage exists exactly when the suggested price is positive; below -10 means a price under 90.05% of the suggested price, above 20 a price over 119.95% of it |
| SimilarFinder.AnalyzeListing | scripts/similar_finder.py:91-106 | The record gets its comps, estimates and price difference; `ok` is false exactly when the suggested price is zero, where the division raises and `priceDiffPct` is left as it was; otherwise the percentage is written |
| SimilarFinder.FilterDistinctRecords | scripts/similar_finder.py:86 | Selecting entries keeps their records distinct |
| SimilarFinder.FirstZero | scripts/similar_finder.py:108 | The position of the first zero suggested price, or the length when there is none |
| SimilarFinder.AnalyzeRecords | scripts/similar_finder.py:90-112 | The loop analyses the records in order; the result is the list of records, each carrying its `priceDiffPct`, exactly when no suggested price is zero; every record before the first zero is fully analysed, the one at it gets everything except the percentage, and the records after it are untouched |
| SimilarFinder.AnalyzeActiveListings | scripts/similar_finder.py:84-112 | The same, over the records of the active entries of `valid` |
| SimilarFinder.Decorated | scripts/similar_finder.py:142-160 | Each result is paired with its own `priceDiffPct`, in order |
| SimilarFinder.Deals | scripts/similar_finder.py:142-143 | `deals` is a permutation of the pairs with a percentage below -10, sorted ascending |
| SimilarFinder.DealsOfResults | scripts/similar_finder.py:142-143 | Every deal is a result whose own `priceDiffPct` is below -10 and is the deal's sort key |
| SimilarFinder.DealsComplete | scripts/similar_finder.py:142-143 | Every result whose `priceDiffPct` is below -10 is on the deal list |
| SimilarFinder.Overpriced | scripts/similar_finder.py:159-160 | `overpriced` is a permutation of the pairs with a percentage above 20, keyed by the negated percentage and sorted by non-increasing percentage |
| SimilarFinder.OverpricedOfResults | scripts/similar_finder.py:159-160 | Every overpriced entry is a result whose own `priceDiffPct` is above 20 and is the negation of its key |
| SimilarFinder.OverpricedComplete | scripts/similar_finder.py:159-160 | Every result whose `priceDiffPct` is above 20 is on the overpriced list |
| SimilarFinder.DealsOverpricedDisjoint | scripts/similar_finder.py:142-160 | Over distinct results, each decorated with its own `priceDiffPct`, no record is both a deal and overpriced, so the two lists together are no longer than the results |
| SimilarFinder.DecoratedDisjoint | scripts/similar_finder.py:142-160 | The same, for any decorated list with one pair per record |
| PricePredictor.FeatureRowShape | scripts/price_predictor.py:40-47 | Six features: sqft (positive), beds, baths or 0, yearBuilt or 1970, lotSize or 0, and 1 exactly when there is a sale date, else 0 |
| PricePredictor.AcceptedIndices | scripts/price_predictor.py:31-49 | Every index is in bounds and names an accepted record |
| PricePredictor.AcceptedIndicesIncreasing | scripts/price_predictor.py:31-49 | The indices are strictly increasing |
| PricePredictor.AcceptedIndicesComplete | scripts/price_predictor.py:31-49 | Every accepted record has its index in the list |
| PricePredictor.AcceptedIndicesFilter | scripts/price_predictor.py:33-38 | The indices name exactly the records the shared filter keeps, in the same order |
| PricePredictor.PrepareFeatures | scripts/price_predictor.py:25-51 | `features`, `prices` and `indices` have equal length; the indices are those of the accepted records, and row k and price k come from the record at index k |
| PricePredictor.AnnotationMeaning | scripts/price_predictor.py:124-127 | An output record is its listing plus the prediction and error truncated toward zero and the percentage within 0.05 of the exact relative error; below -20 means a prediction under 80.05% of the price, above 20 one over 119.95% of it |
| PricePredictor.ZipLength | scripts/price_predictor.py:123 | `zip` stops at the shortest list |
| PricePredictor.Annotate | scripts/price_predictor.py:122-128 | The loop builds record k from the listing at index k, prediction k and actual price k, for as many triples as `zip` yields |
| PricePredictor.OutputRecords | scripts/price_predictor.py:95-128 | With the lists from `prepare_features` and one prediction per row, the output is a copy of every accepted record, in input order, each annotated against its own price |
| PricePredictor.DecorateMember | scripts/price_predictor.py:142 | A pair in the decorated list is an output record with its own percentage |
| PricePredictor.DealsAsWritten | scripts/price_predictor.py:142-143 | The deal list as written is a permutation of the records with a percentage below -20, sorted ascending |
| PricePredictor.DealsAsWrittenAbovePrediction | scripts/price_predictor.py:139-143 | Every record on the deal list as written is priced above its prediction, which is under 80.05% of the price |
| PricePredictor.DealsAsWrittenExample | scripts/price_predictor.py:139-147 | A listing at 100000 predicted at 70000 has percentage -30, is listed and printed as a deal as written, and is absent from the corrected list |
| PricePredictor.UnderpricedDeals | scripts/price_predictor.py:139-143 | The corrected list is a permutation of the records with a percentage above 20, sorted by non-increasing percentage |
| PricePredictor.UnderpricedFrom | scripts/price_predictor.py:142 | Every record on the corrected list is an output record with a percentage above 20 |
| PricePredictor.UnderpricedBelowPrediction | scripts/price_predictor.py:139-143 | Every record on the corrected list is priced below its prediction, which exceeds 119.95% of the price |
| PricePredictor.ShownDeals | scripts/price_predictor.py:145 | The printed deals are the first ten of the deal list as written, or all of it when it is shorter |
| PricePredictor.ShownUnderpriced | scripts/price_predictor.py:145 | The corrected printout is the first ten of the corrected list, or all of it when it is shorter |

## Left out

- The isolation forest, `StandardScaler`, `NearestNeighbors`, `GradientBoostingRegressor`, `cross_val_score` and Prophet are library calls with no visible implementation. Their outputs are parameters: the forest's predictions and decision scores, a row of `(distance, index)` neighbours per active listing, and the regressor's predictions.
- `load_data`, the JSON writes and all printed reports are I/O and are not modelled. Only the list slices that select what is printed are modelled: `for_sale[:15]` and the predictor's `deals[:10]`.
- The printed `deals[:10]` and `overpriced[:5]` of similar_finder.py (lines 145 and 166) are only a slice of lists that are modelled. `Sorting.Take` states what such a slice is.
- The pandas aggregation of `prepare_time_series` (market_forecast.py lines 73-86) and the forecasting code of market_forecast.py are not modelled. `MarketForecast.PrepareTimeSeries` stops at the list of sales.
- `train_model`, `predict_prices` and the accuracy and feature-importance reports of price_predictor.py (lines 53-83 and 104-119) are library calls and printing.
- Floating point: every float is an exact `real`. Division, the means, the rescaling and the percentages hold over reals, so IEEE rounding is not captured. `round` is modelled as exact half-to-even rounding of the real value.
- Dates.ParseInt: accepts an optional sign `+` or `-` followed by a non-empty run of ASCII digits. Python's `int()` also takes surrounding whitespace, underscores between digits and non-ASCII digits; those forms are rejected here. A `-` sign cannot reach it after the split on `-`.
- DealScorer.Normalize: requires that the decision scores are not all equal. The source divides by zero in that case, and no fallback is invented. `DealScorer.Tag` and `DealScorer.CalculateDealScore` inherit this precondition. They also require at least one accepted record, since `StandardScaler().fit_transform` raises on the empty feature matrix of an empty `valid` (deal_scorer.py:56-60), before any score exists.
- DealScorer.Tag: requires the entries' records to be distinct objects, as one JSON load makes them. `DealScorer.CalculateDealScore`, `SimilarFinder.AnalyzeRecords` and `SimilarFinder.AnalyzeActiveListings` require the same of their records.
- SimilarFinder.AnalyzeActiveListings: the number of neighbours per row is not fixed at five. Each row is only required to be non-empty and to index into `sold`, since `kneighbors` guarantees that much. The model's `nNeighbors` records the `min(10, len(sold))` of line 65, which is 10 once the guard has passed.
- SimilarFinder.AnalyzeRecords: the ZeroDivisionError at similar_finder.py:108 is modelled as an early return `None`. The record being analysed keeps the five keys already written, as in the source, and the exception's propagation is not modelled further.
- DealScorer.TopDeals: the sort keys are the deal scores passed in. `DealScorer.ScoresOf` gives the scores the records carry after tagging, and the caller supplies them.
- PricePredictor.Annotate: requires every actual price to be non-zero. The prices come from accepted records, which exceed 50000, and `PricePredictor.OutputRecords` shows this for the lists `prepare_features` returns.
- PricePredictor: listings are values, so `properties[idx].copy()` is the identity on the value, and the input list is unchanged because nothing can change it.
- price_predictor.py:133 reads `scores`, which is not defined in `main` (it is local to `train_model`). The save therefore raises NameError, and the deal list of lines 137-148 is never reached. The model describes the deal list as if it were reached.

## Findings

| source | as written | input that shows it | evidently intended | confidence | as-written member | corrected member |
|---|---|---|---|---|---|---|
| scripts/price_predictor.py:142-143 | keeps the records with `priceErrorPct < -20`, lowest first, which are those whose prediction is more than 20% below the listed price (overpriced by the model's estimate), under the heading "Priced 20%+ below prediction" | a listing priced 100000 with prediction 70000 has `priceErrorPct` -30.0 and is listed as a deal | keep the records with `priceErrorPct > 20`, largest first: listings priced below their prediction | not executed | PricePredictor.DealsAsWritten | PricePredictor.UnderpricedDeals |
