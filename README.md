# Restaurant inspection choropleth — join and aggregation core

This project models the data kernel of the San Francisco restaurant-inspection
choropleth script: turning neighborhood boundary records into GeoJSON
features, attributing each inspection record to the first neighborhood whose
polygon contains it, averaging the scores per neighborhood, scanning all
records again per neighborhood for a count and the highest and lowest score,
and splitting the records into those inside and outside a clicked
neighborhood. Everything is stated over sequences of records in input order.

Modelling choices:

- The point-in-polygon test is a parameter, `contains: (MultiPolygon, Position) -> bool`.
  Every feature's geometry type is the constant "MultiPolygon", so the test depends
  only on the coordinates.
- The score dictionary is keyed by `JSON.stringify(geometry.coordinates)` in the
  source. Serialization is taken to be injective, so the model keys the map by the
  coordinates value itself (`map<MultiPolygon, seq<int>>`). Two features with
  identical coordinates therefore share one list and one average, as in the source.
  Under pairwise distinct coordinates the lists are per feature index
  (`SpatialJoin.AttributedToFeature`).
- Scores are whole numbers; an undefined or missing field is `None`.
  `Math.round(sum / n)` is the integer `r` with `2nr - n <= 2·sum < 2nr + n`
  (halves rounded towards positive infinity), computed as `(2·sum + n) div (2n)`.
- The `-Infinity`/`Infinity` sentinels of the scan are the constructors of
  `RegionSummary.Extended`, and JavaScript's `<` and `>` on them are `Below`.
- A boundary record without `the_geom` makes the conversion throw. The rejection is
  caught and logged (static/js/logic.js:236-238) and no overlay is drawn (the base map
  of static/js/logic.js:1-10 stays); the conversion then returns `None`.
- The popup models the average line as the script prints it (`Average.AverageLineAsWritten`); the line that keeps an average of 0 apart from no data is `Average.AverageLineFor`, and `Average.AsWrittenDiffersOnlyAtZero` states where the two part (see "## Findings").
- The grouping, averaging and scan loops are methods with loop invariants. The
  averaging loop updates an `array<Feature>` in place. The conversion and the click
  filters are functions.

## Model

| member | source | states |
|---|---|---|
| GeoJson.ToFeatures | static/js/logic.js:15-30 | one feature per boundary record, in order; name copied; `properties.coordinates` and `geometry.coordinates` both equal the record's `the_geom.coordinates`; geometry type "MultiPolygon"; a record without `the_geom` makes the conversion fail |
| GeoJson.HasLocationAndScore | static/js/logic.js:41 | the record filter: a record takes part only when it has a location and a defined score (also at lines 113-115, 203 and 215) |
| GeoJson.InPolygon | static/js/logic.js:113-116 | a record counts as inside a polygon when it has a location and a defined score and the polygon contains its point (also the test of the filter at lines 202-209) |
| SpatialJoin.FirstMatch | static/js/logic.js:45-47 | `find` returns the index of the first feature whose polygon contains the point, none earlier contains it, and `None` exactly when no feature contains it |
| SpatialJoin.RoutedTo | static/js/logic.js:45-55 | a record's score goes into the list under `key` exactly when it passes the filter and its first containing feature has coordinates `key` |
| SpatialJoin.Route | static/js/logic.js:41-48 | a record is attributed somewhere only if it has a location and a score, and then to a valid feature index |
| SpatialJoin.RoutedIffContained | static/js/logic.js:41-48 | a record is attributed exactly when it passes the filter and lies in at least one feature |
| SpatialJoin.Attributed | static/js/logic.js:40-57 | the records filed under a key are, in increasing input order, exactly those that pass the filter and whose first containing feature has that key |
| SpatialJoin.FiledUnderFirstMatchOnly | static/js/logic.js:45-57 | a record is filed under the key of its first containing feature and under no other key; a skipped or unmatched record is filed nowhere |
| SpatialJoin.ScoresFor | static/js/logic.js:51-55 | the list under a key after the first `n` records: the previous list, extended by the score of record `n` when its first containing feature has that key |
| SpatialJoin.ScoresForAttributed | static/js/logic.js:51-55 | a key's list holds, position by position, the scores of the records filed under it |
| SpatialJoin.GroupScores | static/js/logic.js:40-59 | the dictionary built by the `forEach` has a key exactly when some record is filed under it, and its list is those records' scores in input order |
| SpatialJoin.ListsHoldEveryRoutedRecord | static/js/logic.js:40-59 | the lists of all feature keys together are as long as the number of records that pass the filter and lie in some feature |
| SpatialJoin.ListedKeysAreFeatureKeys | static/js/logic.js:50-55 | a non-empty list is stored only under some feature's coordinates |
| SpatialJoin.LaterDuplicateNeverMatched | static/js/logic.js:45-50 | a feature whose coordinates repeat an earlier feature's is never the first match, so its records go under the shared key |
| SpatialJoin.AttributedToFeature | static/js/logic.js:45-55 | with pairwise distinct coordinates, the list under feature `i` holds exactly the records whose first containing feature is `i` |
| Average.Sum | static/js/logic.js:73 | the `reduce` total: scores added from the first to the last, starting at 0 |
| Average.RoundedMean | static/js/logic.js:73 | `Math.round(sum / length)`: the result is within one half of the mean, halves rounded up |
| Average.RoundedMeanUnique | static/js/logic.js:73 | the rounding condition determines the average uniquely |
| Average.MeanWithin | static/js/logic.js:73 | if every score lies in `[lo, hi]`, so does the rounded average |
| Average.MeanBetweenMinAndMax | static/js/logic.js:73 | the rounded average lies between the list's minimum and maximum |
| Average.AverageExamples | static/js/logic.js:73 | scores 70, 80, 90 average to 80; scores 80, 81 average to 81 |
| Average.AverageFor | static/js/logic.js:68-77 | a key without a list gets `undefined` (`None`, never 0); a key with a list gets its rounded mean |
| Average.ApplyAverages | static/js/logic.js:67-78 | each feature's `average_inspection_score` is set from the list under its own coordinates, and nothing else about any feature changes |
| Average.JoinAndAverage | static/js/logic.js:40-78 | after grouping and averaging, a feature's average is `undefined` exactly when no record was filed under its coordinates, otherwise the rounded mean of those scores; name and geometry unchanged |
| Average.AverageLineAsWritten | static/js/logic.js:96-102 | the popup's average line as written: "No data" for an undefined average and also for an average of 0 |
| Average.AsWrittenZeroReadsNoData | static/js/logic.js:99 | an average of 0 and a missing average both read "No data" instead of a score |
| Average.AsWrittenDiffersOnlyAtZero | static/js/logic.js:98-102 | the printed average line and the corrected one differ exactly on an average of 0 |
| Average.AverageLineFor | static/js/logic.js:96-102 | the corrected average line: "No data" exactly when the average is undefined, otherwise the average |
| Filters.Selected | static/js/logic.js:202-221 | the positions a `filter` keeps: exactly the positions whose element the test accepts, each once, in increasing order |
| Filters.Passing | static/js/logic.js:203 | the records with a location and a score: element `i` is the record at the `i`-th selected position, so input order and repeats are kept |
| Filters.Businesses | static/js/logic.js:202-209 | `businesses`: exactly the passing records whose point lies in the clicked polygon, one for each selected position, in input order |
| Filters.UnmappedBusinesses | static/js/logic.js:214-221 | `unmappedBusinesses`: exactly the passing records whose point lies outside the clicked polygon, one for each selected position, in input order |
| Filters.ClickSplitsPassingRecords | static/js/logic.js:202-221 | the passing records, in input order, are a merge of `businesses` and `unmappedBusinesses` |
| Filters.ClickListsDisjoint | static/js/logic.js:202-221 | no record is in both lists |
| Filters.ClickListSizes | static/js/logic.js:202-223 | the two lists together are as long as the list of passing records |
| Filters.InterleavingKeepsElements | static/js/logic.js:202-221 | a merge holds every element of its two parts, with multiplicity, and nothing else |
| RegionSummary.Below | static/js/logic.js:120-124 | `<` against the sentinels: `-Infinity` is below every score and `Infinity`, every score is below `Infinity`, scores compare as integers |
| RegionSummary.ScanFeature | static/js/logic.js:104-129 | `businessCount` is the number of passing records inside the feature; with none, all four values keep their sentinels; otherwise the highest (lowest) score is the maximum (minimum) over those records, paired with the name of the first record in input order to reach it |
| RegionSummary.FirstHighestUnique | static/js/logic.js:120-123 | the strict `>` picks one record: two records cannot both be first to reach the maximum |
| RegionSummary.FirstLowestUnique | static/js/logic.js:124-127 | the strict `<` picks one record for the minimum |
| RegionSummary.CountCoversScoreList | static/js/logic.js:112-118 | each feature's `businessCount` is at least the length of the score list under its coordinates, since it counts every containing feature and not only the first |
| RegionSummary.ScoreCell | static/js/logic.js:133-134 | a score shows as "N/A" exactly when it still equals its sentinel |
| RegionSummary.BusinessCell | static/js/logic.js:133-134 | a business name shows as "N/A" exactly when it is empty |
| RegionSummary.DescribeFeature | static/js/logic.js:94-134 | the popup: name, the average line as printed (an average of 0 reads "No data"), count; "N/A" for both scores and both businesses when no record is inside; otherwise the extreme scores and the names of the first records reaching them |

## Left out

- Map creation, the tile layer, `fitBounds`, layer styles and the click, popup-open and popup-close hooks (static/js/logic.js:1-10, 136-159, 193, 229-231): user-interface glue over the map widget.
- The two `d3.json` fetches and their promise chains (static/js/logic.js:13, 33, 233-238): network I/O; the boundary and inspection records are inputs.
- `turf.booleanPointInPolygon`: a foreign geometry routine, taken as the `contains` parameter.
- `parseFloat`, NaN and floating-point division and rounding: scores are whole numbers, so a score that does not parse has no counterpart.
- A record whose `business_location` has no `coordinates`, and a record with no `business_name`: the model's record always has a name and a location is a position or absent.
- A boundary record whose `the_geom` has no `coordinates`, and one with no `name`: `BoundaryRecord` always carries both. In the source the first gives a feature with undefined coordinates, on which `turf.booleanPointInPolygon` throws (static/js/logic.js:45-47) and the rejection is caught and logged (static/js/logic.js:233-235); the second shows "undefined" as the neighborhood name.
- The quantile colouring by `L.choropleth`, the colour palette and the legend markup (static/js/logic.js:81-93, 164-191): a third-party widget and presentation.
- Popup markup beyond the values and "N/A"/"No data" decisions, and all `console.log` output, including the two lists' names and lengths in the click handler (static/js/logic.js:211-212, 223).
- The `uniqueBusinesses` set (static/js/logic.js:37, 56, 62): computed but never used.
- The FeatureCollection and Feature `type` tags: read only by the map widget, which is left out; only the geometry type is kept.
- Average.ApplyAverages: requires every list in the dictionary to be non-empty; an empty list would give NaN in the source, and `GroupScores` never produces one.

## Findings

| source | as written | input that shows it | evidently intended | confidence | as-written member | corrected member |
|---|---|---|---|---|---|---|
| static/js/logic.js:99 | `score ? score.toFixed(0) : "No data"` treats a defined average of 0 as falsy | a neighborhood whose filed scores average to 0 reads "No data" instead of a score, as a neighborhood with no records does | only an undefined average reads "No data"; no data is kept distinct from a score of 0 | low; not executed; real inspection scores are far above 0 | Average.AverageLineAsWritten, Average.AsWrittenZeroReadsNoData | Average.AverageLineFor |
