# Train-to-platform recommendation engine (RouteMinds), in Dafny

This project models the recommendation engine of the train section controller. The engine is
`get_recommendations_with_platforms`. It takes the waiting trains and the platform lines, and
suggests an available line for each of the most urgent trains. It works in three steps:

1. **Filter** (`Availability.AvailableLines`). Keep the platform rows whose `Is_Available` flag is
   true, in table order.
2. **Rank** (`Ranking.Rank`). Sort the trains with Python's stable `sorted` under the key
   `(priority, -delay, clearance_time)`. A lower priority comes first. At equal priority the larger
   delay comes first. At equal priority and delay the smaller clearance time comes first.
3. **Match** (`Engine.GetRecommendationsWithPlatforms`). A `for` loop appends the pair
   (i-th ranked train, i-th available line) for `min(#trains, #available lines, 10)` positions.

The tables become sequences of records (`Records.Train`, `Records.Platform`). The result is a
sequence of `Records.Recommendation` pairs. The filter and the sort are expressions in the source,
so they are modelled as functions. The pairing loop is a method proved against the function
`Engine.Recommend`.

Stability is stated the way a stable sort is classically built: decorate, sort, undecorate. Each
train is tagged with its input index (`Ranking.Entry`). The insertion sort only compares keys. The
tag is what lets "equal keys keep their input order" be written down. `Ranking.RankIsPythonSorted`
shows that any rearrangement of the tagged input that is ordered and stable is exactly the model's
ranking. So the model computes what Python's `sorted` promises, not merely some sorted
permutation.

dashboard.py holds a line-for-line copy of the engine (`Dashboard.GetRecommendationsWithPlatforms`).
It is modelled as a call to the same engine. Its contract states what the page relies on: the table
has at most ten rows, and the notice appears exactly when the result is empty.

Where the design description and the code differ, the model follows the code. The description
says that a missing numeric field defaults to 0. The code indexes `train['priority']`,
`train['delay']` and `train['clearance_time']` directly, which raises `KeyError` on a missing
field. The model therefore takes well-typed records and applies no defaults.

## Model

| member | source | states |
|---|---|---|
| `Ranking.RanksBeforeMeaning` | main.py:20-24 | The tuple key means: lower priority first; at equal priority the larger delay first; at equal priority and delay the smaller clearance time first. Two trains compare equal exactly when neither ranks before the other. |
| `Ranking.RankEntriesIsStableSort` | main.py:20-24 | The tagged ranking is a rearrangement of the tagged input. It is ordered by the key and stable: entries with equal keys keep increasing input positions. |
| `Ranking.RankIsSortedPermutation` | main.py:19-24 | `sorted_trains` has the same length and the same multiset of trains as the input. No train ranks strictly before a train placed ahead of it. |
| `Ranking.RankOrderPermutes` | main.py:19-24 | Position k of the ranking holds the input train at index `RankOrder[k]`. These indices are in range and pairwise distinct, so they form a permutation of the input indices. |
| `Ranking.RankIsStable` | main.py:20-24 | Two ranked trains with equal keys appear in the order of their input indices, which is the stability of `sorted`. |
| `Ranking.StableSortUnique` | main.py:20-24 | Two ordered, stable rearrangements of the same tagged entries are equal, so a stable sort has exactly one result. |
| `Ranking.RankIsPythonSorted` | main.py:20-24 | Any ordered, stable rearrangement of the tagged input equals the model's ranking, and undecorates to `Rank`. |
| `Ranking.InsertionSortOrders` | main.py:20-24 | Insertion sort of entries given in input order yields an ordered, stable sequence. |
| `Ranking.UntagMultiset` | main.py:19-20 | Undecorating two rearrangements of the same tagged entries yields two rearrangements of the same trains. |
| `Availability.AvailableLinesMembers` | main.py:16 | A platform row is in `available_lines` if and only if it is in the table and its `Is_Available` flag is true. |
| `Availability.AvailableIndices` | main.py:16 | The indices of the available rows: each index is in range and available, every available index appears, and the indices strictly increase. |
| `Availability.AvailableLinesInOrder` | main.py:16 | The k-th available line is the table row at the k-th available index. The mask keeps the available rows in table order, with no re-sorting. |
| `Engine.NumSuggestions` | main.py:29 | The suggestion count is at most the number of trains, at most the number of available lines and at most 10, and it equals one of the three: their minimum. |
| `Engine.GetRecommendationsWithPlatforms` | main.py:3-35 | The loop's result equals the positional zip of the ranking with the available lines, cut to the suggestion count. |
| `Engine.RecommendShape` | main.py:29-33 | The result has exactly `min(#trains, #available lines, 10)` pairs, so never more than ten. Pair i is (i-th ranked train, i-th available line). |
| `Engine.RecommendEmpty` | main.py:29-33 | The result is empty if and only if there are no trains or no platform row is available. |
| `Engine.RecommendedPlatformsInOrder` | main.py:15-33 | Every suggested line is available. Pair i uses the table row at the i-th available index, and these indices increase along the result. |
| `Engine.SortedPrefixIsTop` | main.py:29-33 | Cutting an ordered ranking after n entries leaves out no train that ranks strictly before a kept one. |
| `Engine.RecommendTopK` | main.py:20-33 | The suggested trains are input trains in ranked order. No train left out of the result ranks strictly before any suggested train. |
| `Dashboard.GetRecommendationsWithPlatforms` | dashboard.py:5-20 | The dashboard's copy returns the engine's result. That result has `min(#trains, #available lines, 10)` rows, at most ten. Row i pairs the i-th ranked train with the i-th available line, which is available. The result is empty exactly when there are no trains or no available line. |

## Left out

- `run_simulation` and the `__main__` block of main.py: CSV loading, the `FileNotFoundError` message and console printing are I/O.
- Everything in dashboard.py outside the engine copy: page setup, the sidebar previews, the timestamp in Asia/Kolkata time, the results table and the error banner. These are presentation through a foreign UI library.
- The display-name fallback (`Train_Name`, else `Trip_ID`) and the "Platform_ID, Line_ID" label: presentation only.
- pandas specifics: boolean masking, `to_dict('records')` and NaN values. The tables are sequences of typed records, and the mask is a boolean filter.
- `clearance_time` as a floating-point number: it is an integer here. Only its ordering matters to the engine, and NaN, whose comparisons break `sorted`'s ordering, is not modelled.
- Integer width: the key negates `delay`, and 64-bit overflow of that negation is not modelled. Integers are unbounded.
- Records with a missing field: the source raises `KeyError`, and the model takes well-typed records.
- Per-platform queues, manual High/Low overrides, the apply/revert reconciliation and round-robin or fixed platform assignment: none of them exists in main.py or dashboard.py, so there is no code to model.
