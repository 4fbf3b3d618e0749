# Stock valuation analyzer — verified model of its deterministic core

The analyzer is a single Streamlit script (`app.py`). It asks a hosted language model
to score a stock against a fixed 13-criterion rubric. It caches each result by the
normalised query for seven days and shows every cached stock in a ranking table.
This project models the deterministic logic inside that script:

- **Cache key**: `ticker_input.strip().upper()` (`ticker_key.dfy`, module `TickerKey`).
- **Freshness rule**: an entry is reused while `(now - stored).days < 7` (`freshness.dfy`, module `Freshness`).
  Instants are integers counting microseconds, the resolution of Python's datetime.
  `timedelta.days` rounds toward negative infinity, which is Dafny's `/` for a positive divisor.
- **Analysis cache**: the `analyses` dict, as the class `Store.AnalysisStore` (`analysis_store.dfy`).
  It holds a `map` of entries plus the dict's insertion order, which the ranking's tie order depends on.
  Its `Analyze` method is the analyse button: look up, maybe call the model, write back.
  The model call is a function parameter. The two `datetime.now()` readings are parameters.
- **Reply parsing**: the greedy search `\{[\s\S]*\}` over the completion text (`json_span.dfy`, module `JsonSpan`).
  `json.loads` is an opaque `decode` parameter.
- **Ranking**: one row per entry, a stable sort by total from high to low, then ranks 1..n (`ranking.dfy`, module `Ranking`).
  Python's `list.sort` is a library call, so it is the pure function `SortByTotalDesc`.
  `StableOrderIsUnique` proves that any stable descending sort gives this same list.
- **Rubric table and detail view**: the 13 `(title, key, max)` criteria and the loop that shows the scored ones (`rubric.dfy`, module `Rubric`).

Shared values are in `records.dfy` (module `Records`): the decoded analysis object, with every field optional, and the cache entry.
`wrappers.dfy` holds `Option`.

Three behaviours of `app.py` that the model keeps as written:

- `app.py` has no routine that clamps sub-scores or recomputes the total. The total is shown as delivered and scores are never capped; `Rubric.ShownScoreIsNotCapped` exhibits this.
- A failed refresh of a stale entry shows nothing: `analysis_result` stays `None`, and the stale entry is not used as a fallback. `Store.AnalysisStore.Analyze` shows nothing unless `Succeeded(shown)`, which also excludes a decoded empty object.
- The completion text is parsed by one greedy regex search, from the first `{` to the last `}`, then one `json.loads`.

## Model

| member | source | states |
|---|---|---|
| `TickerKey.NormalizeKey` | app.py:206 | the key has no whitespace at either end and no lower-case letter, and is never longer than the input |
| `TickerKey.NormalizeKeyIsUpperOfTrimmed` | app.py:206 | the key is the upper-cased slice of the input left once leading and trailing whitespace is dropped |
| `TickerKey.StripIsTrimmedSlice` | app.py:206 | `strip()` keeps one contiguous slice and removes only whitespace before and after it |
| `TickerKey.Strip` | app.py:206 | the stripped text neither starts nor ends with a Python whitespace character |
| `TickerKey.Upper` | app.py:206 | upper-casing keeps the length and maps each character in place |
| `TickerKey.NormalizeKeyIdempotent` | app.py:206 | normalising a key again gives the same key |
| `TickerKey.NormalizeKeyPaddedLowerCase` | app.py:206 | `"  aapl "` and `"AAPL"` both give the key `"AAPL"` |
| `TickerKey.NormalizeKeyNameIsNotTicker` | app.py:206 | `"Apple"` and `"AAPL"` give different keys |
| `Freshness.DaysOld` | app.py:211 | the age in days is the floor of the elapsed time over one day, negative for a future timestamp |
| `Freshness.FreshIffUnderSevenDays` | app.py:211-213 | an entry is fresh exactly when less than seven full days have elapsed, in both directions |
| `Freshness.FreshnessBoundary` | app.py:211-213 | seven days less one second is fresh; exactly seven days and seven days plus one second are stale |
| `Freshness.FutureEntryIsFresh` | app.py:211-213 | an entry stamped later than the clock counts as fresh |
| `Store.Written` | app.py:221-227 | a successful result is stored as `key ↦ (at, result)`; every other key keeps its entry; a `None` or empty result writes nothing |
| `Store.WrittenOrder` | app.py:232-238 | a new key goes last in iteration order; an overwritten key keeps its place; the order still lists each key once |
| `Store.ServedFromCacheForAWeek` | app.py:206-215 | after a successful analysis, any spelling of the same query within seven days is served the stored result without a new call |
| `Store.RefreshedAfterAWeek` | app.py:209-219 | an entry seven or more full days old does not spare a new analysis |
| `Store.AnalysisStore.constructor` | app.py:34-38 | an absent cache file loads as an empty cache |
| `Store.AnalysisStore.Analyze` | app.py:201-238 | empty input does nothing; a fresh entry is shown without a call; otherwise the model is asked with the text as typed and its result is shown; the cache changes exactly as `Written` and `WrittenOrder` say |
| `JsonSpan.IndexOf` | app.py:169 | the result is the position of the first occurrence, and none occurs before it |
| `JsonSpan.LastIndexOf` | app.py:169 | the result is the position of the last occurrence, and none occurs after it |
| `JsonSpan.ExtractSpan` | app.py:168-175 | the search succeeds exactly when some `{` precedes some `}`; the match starts with `{`, ends with `}`, and spans from the first `{` to the last `}`, containing every other match |
| `JsonSpan.AnalysisOutcome` | app.py:159-179 | a failed request gives `None`; no match gives `None`; a match gives the decoding of the matched text, and a result exists only when the search matched |
| `Ranking.RowsOf` | app.py:296-305 | one row per key, in the cache's iteration order |
| `Ranking.RowOf` | app.py:299-305 | a row shows the analysis' name, ticker and total; a missing name or ticker shows the cache key, a missing total shows 0; the rank starts at 0 and the instant is the entry's timestamp |
| `Ranking.RowsOfCoverEntries` | app.py:297-305 | every cache entry has its row, and every row comes from a cache entry |
| `Ranking.SortByTotalDesc` | app.py:308 | sorting keeps the number of rows; the order it produces is stated by the three `SortIs` lemmas below |
| `Ranking.SortIsNonIncreasing` | app.py:308 | after sorting, totals never increase |
| `Ranking.SortIsPermutation` | app.py:308 | sorting neither loses nor adds rows |
| `Ranking.SortIsStable` | app.py:308 | rows with the same total keep their original relative order |
| `Ranking.StableOrderIsUnique` | app.py:308 | two non-increasing orderings that keep every equal-total group in the same order are equal |
| `Ranking.StableSortIsSortByTotalDesc` | app.py:308 | any stable descending sort by total yields exactly the modelled sort |
| `Ranking.SortTieExample` | app.py:308 | totals 80, 95, 95, 10 come out as 95, 95, 80, 10 with the two 95s in input order |
| `Ranking.BuildRows` | app.py:296-305 | the append loop yields exactly one row per key, in the cache's iteration order |
| `Ranking.AssignRanks` | app.py:311-312 | the row at position i gets rank i + 1 and is otherwise unchanged |
| `Ranking.RankedRows` | app.py:308-312 | numbering the sorted rows 1..n keeps them non-increasing, a permutation of the built rows, and stable within equal totals |
| `Ranking.BuildRanking` | app.py:296-312 | one row per cache entry; ranks run 1..n in order; totals are non-increasing; the rows are a permutation of the built rows; equal totals keep the cache order |
| `Rubric.CriteriaTotal` | app.py:259-273 | the table has 13 criteria whose maximum points sum to 100 |
| `Rubric.CriteriaMaxima` | app.py:259-273 | the maxima are 20, 5, 5, 5, 10, 5, 5, 7, 8, 5, 10, 10, 5 in table order |
| `Rubric.CriteriaKeysDistinct` | app.py:259-273 | no two criteria share a key |
| `Rubric.DetailOf` | app.py:275-278 | never more lines than criteria |
| `Rubric.ScoredPositions` | app.py:275-276 | every listed position is inside the table and holds a criterion whose key was scored |
| `Rubric.ScoredPositionsIncreasing` | app.py:275-276 | the scored positions strictly increase, so they follow the table order |
| `Rubric.ScoredPositionsComplete` | app.py:275-276 | every scored criterion's position is listed |
| `Rubric.DetailOfAtScoredPositions` | app.py:275-282 | line i is the line of the criterion at the i-th scored position: one line per scored criterion, in table order |
| `Rubric.DetailOfOneLinePerKey` | app.py:275-282 | with the table's distinct keys, no two detail lines share a key |
| `Rubric.LineOf` | app.py:277-282 | a line shows the criterion's title, key and maximum with the item's score, value and reason; a missing `score` shows 0, a missing value or reason shows an empty string |
| `Rubric.DetailOfListsScoredCriteria` | app.py:275-282 | a criterion gets a line exactly when its key is in `scores`, and that line is `LineOf` of the scored item |
| `Rubric.DetailOfNoScores` | app.py:257 | an analysis without `scores` shows no detail lines |
| `Rubric.DetailView` | app.py:257-282 | the loop emits the lines of the scored criteria in table order |
| `Rubric.ShownScoreIsNotCapped` | app.py:278-282 | a delivered score of 25 for the 20-point criterion is shown as 25: nothing clamps scores |

## Left out

- Page layout, tabs, buttons, spinners, messages and the top-3 highlight (app.py:9-13, 182-199, 241-256, 283-293, 314-338): presentation only.
- The HTTP request, headers, model name and prompt text (app.py:46-162): network I/O to a foreign service. `JsonSpan.AnalysisOutcome` takes the completion text, or `None` for a failed request.
- `json.loads` (app.py:171): an opaque `decode` parameter. A failure to decode gives `None`, because the caught exception returns `None`.
- `Store.Written`: concurrent sessions are not modelled. Each run reloads `analyses.json` whole and overwrites it whole (app.py:203, 227, 238), so two sessions analysing at once can lose each other's new entries; the model has a single writer, for which every other key keeps its entry.
- Reading and writing `analyses.json` and creating its directory (app.py:16-18, 34-43): disk I/O. The cache is the in-memory class. The JSON file preserves key order, so `order` survives a save and load.
- API key lookup from secrets or the environment (app.py:21-31).
- ISO-8601 parsing and formatting and the `%Y-%m-%d` date column (app.py:210, 214, 224, 235, 304): a row carries the analysis instant and does not render it.
- `TickerKey.Upper`: `str.upper()` is modelled for ASCII letters only. Other scripts' case mappings, such as `ß` to `SS`, are not modelled.
- `Records.Analysis`: fields are typed. A total is an integer when present. Floats, strings or `null` in these fields are not modelled, nor is Python's error when the sort compares mismatched types.
- The `KeyError` raised by `analysis_result['total_score']` when an analysis has no total (app.py:248) happens only during display, after caching, and is not modelled.
- `Rubric.DetailView` takes the criteria table as a parameter; the application passes `Rubric.Criteria`.
- `Ranking.SortByTotalDesc`: the model specifies the result of Python's stable sort, not its Timsort steps.
- No validator that clamps scores or recomputes the total exists in `app.py`, so none is modelled.
