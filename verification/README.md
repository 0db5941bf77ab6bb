# Review analyzer: query and ingest model

A Dafny model of the request logic of `ReviewAnalyzerServer.__call__` in the
review analyzer server. The server holds reviews in memory. Each review has an
id, a body, a location and a timestamp. The server answers two kinds of request:

- **Query (GET).** The request may carry a location, a start date and an end
  date. A location outside the fixed registry is rejected. Otherwise the store
  is narrowed by exact location, then by `timestamp >= start` and then by
  `timestamp <= end`. Both dates are read as midnight of the given day. Each
  surviving review is scored by the sentiment analyser. The results are sorted
  by compound score, highest first. The sort is stable, so equal scores keep
  the narrowed order, which is the store order.
- **Submit (POST).** A missing or empty `ReviewBody` or `Location` is rejected,
  and so is a location outside the registry. Otherwise a new record is built
  and appended to the store.

Modules, one per component:

| module | file | component |
|---|---|---|
| `Wrappers` | wrappers.dfy | `Option` and `Result` |
| `Sequences` | sequences.dfy | the subsequence relation |
| `Timestamps` | timestamps.dfy | days, instants, `datetime` ordering, midnight widening |
| `Locations` | locations.dfy | the `allowed_locations` registry |
| `Reviews` | reviews.dfy | review, sentiment and error types; score attachment |
| `Filtering` | filtering.dfy | filter stages, staged narrowing, the one-pass reference |
| `Ranking` | ranking.dfy | stable insertion sort by compound score, descending |
| `Queries` | queries.dfy | the GET branch |
| `Ingest` | ingest.dfy | the POST branch |

Design choices:

- The sentiment analyser is a parameter, `scorer: string -> Sentiment`. All
  that is assumed of it is that it is a function of the body text.
- Query parameters arrive already decoded. A location is applied only when it
  is a non-empty string, which mirrors `if location:`. A date is `Absent`,
  `Malformed` or `Day(date)`.
- The end-date comparison is kept exactly as written. The bound is 00:00:00
  of the end day, so a review at 00:00:01 on that day is excluded
  (`Queries.EndDateExcludesRestOfDay`).
- A start date after the end date is not an error. It yields an empty result
  (`Queries.InvertedRangeIsEmpty`).
- A malformed date becomes the error `MalformedDate`. In the code,
  `datetime.strptime` raises `ValueError` at server.py:84 or server.py:89, and
  the GET branch has no handler for it. The model keeps the code's order of
  checks: the location first, then the start date, then the end date.
- A query returns a fresh sequence and leaves the store alone. In the code,
  when no filter applies, `filtered_reviews` is the global list itself. Sorting
  it then reorders the store in place. Also, in every case the scores are
  written into the stored records. The model abstracts both effects away on
  purpose, so a query is a pure function of a store snapshot.

## Model

| member | source | states |
|---|---|---|
| `Locations.RegistryShape` | server.py:27-46 | the registry holds exactly 18 distinct locations, and the empty string is not one of them |
| `Queries.LocationStages` | server.py:76-80 | a given, non-empty location outside the registry is an `InvalidLocation` error, and nothing else is; a valid location keeps exactly the reviews at that location; no location keeps everything |
| `Queries.StartStages` | server.py:83-85 | a start date keeps exactly the reviews at or after midnight of that day; only a malformed date fails |
| `Queries.EndStages` | server.py:88-90 | an end date keeps exactly the reviews at or before midnight of that day; only a malformed date fails |
| `Queries.Criteria` | server.py:69-90 | `InvalidLocation` exactly when the location is given and unknown; `MalformedDate` exactly when the location is fine and a date is malformed; success exactly when neither holds; the resulting stages accept a review iff it satisfies every requested condition |
| `Filtering.Keep` | server.py:80 | one stage keeps exactly the reviews it accepts, as an order-preserving subsequence of its input |
| `Filtering.Narrow` | server.py:73-90 | the chained stages keep exactly the reviews that every stage accepts, as an order-preserving subsequence of the store |
| `Filtering.NarrowIsSelect` | server.py:73-90 | applying the stages one after another equals one pass that keeps the reviews passing all stages, with multiplicity and order |
| `Filtering.SelectAppend` | server.py:80-90 | narrowing a store with one review appended gives the old narrowing, plus that review at the end iff it passes every stage |
| `Reviews.ScoreAll` | server.py:93-94 | every narrowed review keeps its position and carries the scorer's result for its body |
| `Ranking.Insert` | server.py:97 | inserting into a descending sequence keeps it descending and adds exactly the one element |
| `Ranking.Rank` | server.py:97 | the ranked output is sorted non-increasing by compound score and is a permutation of the input |
| `Ranking.SortedDescPairwise` | server.py:97 | in a ranked output every earlier result scores at least as high as every later one |
| `Ranking.RankIsStable` | server.py:97 | for every score value, the results with that score appear in their incoming order |
| `Queries.Query` | server.py:64-97 | fails exactly when validation fails, with the validation error, and succeeds exactly when the location is acceptable and neither date is malformed; on success the output is no longer than the store, the output is sorted descending by compound score, every result is a stored review meeting every requested condition and scored by the scorer, and every stored review meeting them is in the output |
| `Queries.QueryIsStablePermutation` | server.py:73-97 | a valid query's output is a permutation of the scored one-pass selection, and ties keep store order |
| `Queries.InvalidLocationReadsNothing` | server.py:76-79 | an unknown location gives `InvalidLocation` whatever the store and the scorer are, so no filtering or scoring decides the outcome |
| `Queries.EndDateExcludesRestOfDay` | server.py:88-90 | no result is stamped on the end day after 00:00:00 |
| `Queries.InvertedRangeIsEmpty` | server.py:83-90 | a start day after the end day, with an acceptable location, gives a successful empty result |
| `Queries.QueryAfterAppend` | server.py:73-97 | after one review is appended, a valid query's output gains exactly that review when it matches; among equal scores it comes after all older reviews |
| `Timestamps.MidnightMonotonic` | server.py:84-89 | comparing the midnights of two days orders them as the days themselves |
| `Timestamps.LaterThanMidnight` | server.py:89-90 | a valid instant on day `d` is at or before midnight of `d` only if it is that midnight |
| `Timestamps.NothingBetweenInvertedDays` | server.py:83-90 | no instant is at or after a start midnight and at or before an earlier end midnight |
| `Ingest.Submit` | server.py:112-137 | `MissingFields` iff the body or location is missing or empty; `InvalidLocation` iff both are present and the location is unknown; success iff both are present and the location is registered; the store is unchanged on either error; on success the store grows by exactly one, the prefix is untouched, and the last record carries the given body, location, id and time |
| `Ingest.SubmitPreservesWellFormed` | server.py:116-137 | with a fresh id and a valid clock, a submission keeps ids unique, bodies non-empty, locations registered and timestamps valid |
| `Ingest.QueryAfterSubmit` | server.py:129-137 | after an accepted submission, any valid query gains the new review exactly when it matches, and the new review comes last among equal scores |

## Left out

- Queries.Criteria: a malformed date is returned as the typed error `MalformedDate`. The code does not return an error value here; the `ValueError` from `strptime` escapes the request handler (server.py:84, 89), and how the server then answers is outside the model.
- The WSGI transport: query-string and form decoding with `parse_qs`, reading `CONTENT_LENGTH`, status lines, headers and JSON encoding (server.py:57-62, 66-71, 98-102, 108-113, 139-141). Requests arrive as decoded parameters and results as typed values. The error messages exist only as the `ApiError` constructors.
- The VADER analyser and the `nltk.download` calls (server.py:13-16, 20, 53-55). They are foreign, float-valued library code. The scorer is a function parameter, and compound scores are `real`, so float rounding is not modelled.
- `datetime.strptime` parsing of query dates and stored timestamps (server.py:84-90). Dates and timestamps are already-parsed values. A malformed query date is the opaque `MalformedDate` error. A stored timestamp that fails to parse cannot occur in the model.
- `uuid.uuid4()` and `datetime.now()` (server.py:126-127). They are nondeterministic, so the id and the time are parameters of `Submit`.
- CSV loading with pandas (server.py:24) and server start-up (server.py:148-153). The initial store is any sequence of reviews.
- The catch-all exception handler of the POST branch (server.py:143-146). No modelled step raises.
- The unused `stop_words` and `adj_noun_pairs_count` (server.py:19, 21).
- In-place effects of a query on the global list. When no filter applies, the sort reorders the store, and the attached scores are always written into the stored records (server.py:73, 93-97). Queries are modelled as pure functions of a snapshot.
- Concurrency. The handler has no locking, and each request is modelled as one sequential step.
