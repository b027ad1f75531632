# Catalog search and agent reply shaping, in Dafny

This project models the two pieces of sequential logic in a small question-answering service.

- **The catalog index** (`knowledge_base.py`, class `VectorDatabase`). Construction copies a corpus of `{id, text, meta}` dictionaries into three parallel lists. A missing `meta` becomes `{}`. A corpus that is not a list or tuple raises `ValueError`, and an entry without `id` or `text` raises `KeyError`. `search` clamps `top_k` to the corpus size `n`. If the clamped `k` equals `n`, it sorts every entry by descending similarity. Otherwise it picks the `k` best entries (`argpartition`) and sorts only those. It then builds `ProductDescription` records from the parallel lists.
- **Reply shaping** (`main.py`). This covers the `get_sales` tool, the trace filter, and the chat history. The trace filter keeps only the `user-prompt`, `tool-call` and `tool-return` parts of a run's new messages. The chat history is one list: startup creates it empty, every successful query replaces it and shutdown clears it.

Modules:
- `Wrappers` (wrappers.dfy): `Option` and `Result`.
- `Ranking` (ranking.dfy): what "the k best entries, highest first" means, stated over abstract scores. It holds the in-place selection routine behind `argsort` and `argpartition`, and the lemmas showing that the partial-selection path agrees with "sort all, take k".
- `KnowledgeBase` (knowledge_base.dfy): the `VectorDatabase` class, its construction and its search.
- `AgentService` (agent_service.dfy): `GetSales`, the trace filter with its lemmas, and the `AppState` class holding the chat history.

The similarity scores are an input. `Search` receives `sims`, which holds one real score per stored entry. In the source these are dot products of normalised embeddings. The index's lists are `const` fields, set once by the constructor. `Search` has no `modifies` clause, so it can change neither those lists nor anything else.

Two consequences of the code are worth stating:
- On a non-empty index, a negative `top_k` does not give an empty list; see "Left out".
- With tied scores, the full-sort and partial-selection paths may return different ids. `Ranking.PartialAgreesWithFullSort` proves that their scores agree position by position. `Ranking.RankingUniqueWithoutTies` proves that the ids agree when no two scores tie.

## Model

| member | source | states |
|---|---|---|
| `Ranking.SelectBest` | knowledge_base.py:106-110 | Rearranges the index array in place into a permutation of its old contents. Afterwards its first `k` entries are in descending score order, and no later entry scores above any of them. |
| `Ranking.IndexOfBest` | knowledge_base.py:107-110 | Returns a position in `a[i..]` whose score is at least that of every other position in `a[i..]`. |
| `Ranking.ArgSort` | knowledge_base.py:107 | `argsort(-sims)` returns a permutation of `0..n-1` in non-increasing score order, which is a top-n ranking. |
| `Ranking.ArgPartition` | knowledge_base.py:109 | `argpartition(-sims, k-1)[:k]` returns `k` distinct in-range indices, and no omitted entry outscores any of them. No order is promised. |
| `Ranking.SortByScore` | knowledge_base.py:110 | `idx[argsort(-sims[idx])]` returns a rearrangement of `idx` (same multiset) with non-increasing scores. |
| `Ranking.PermutationFacts` | knowledge_base.py:107 | A permutation of `0..n-1` has length `n`, holds distinct in-range indices and contains every index below `n`. |
| `Ranking.PrefixIsRanking` | knowledge_base.py:106-110 | Take a permutation whose first `k` entries are sorted and dominate the rest. Its first `k` entries form a top-k ranking. |
| `Ranking.SortedSelectionIsRanking` | knowledge_base.py:109-110 | Sorting a top-k selection by descending score gives a top-k ranking. This is why the partial path returns correct results. |
| `Ranking.DistinctIffCountsAtMostOne` | knowledge_base.py:107-110 | A list of indices has no repeats exactly when no index occurs twice in its multiset. |
| `Ranking.RearrangedDistinct` | knowledge_base.py:110 | Rearranging a list of distinct indices (same multiset) keeps them distinct. |
| `Ranking.RankingPositionAtMost` | knowledge_base.py:106-110 | Compare two top-k rankings of the same scores at any position `i`. The first never scores above the second there. |
| `Ranking.RankingScoresUnique` | knowledge_base.py:106-110 | Any two top-k rankings of the same scores have equal scores at every position. Only the order among ties can differ. |
| `Ranking.PartialAgreesWithFullSort` | knowledge_base.py:106-110 | The partial-selection result has, position by position, the same scores as a full descending sort truncated to `k`. |
| `Ranking.RankingUniqueWithoutTies` | knowledge_base.py:106-110 | When no two entries tie, any two top-k rankings are the same index sequence. The two paths then return identical results. |
| `KnowledgeBase.CheckCorpus` | knowledge_base.py:55-62 | Construction fails exactly when the corpus is not a list/tuple (`ValueError` with the source's message) or some entry lacks `id` or `text` (`KeyError`). `KeyError("id")` is raised exactly when some id is missing, because ids are collected first. `KeyError("text")` is raised exactly when every id is present and some text is missing. |
| `KnowledgeBase.VectorDatabase.constructor` | knowledge_base.py:61-68 | The three lists each have `len(corpus)` entries. Position `i` holds entry `i`'s id, its text, and its meta (or `{}` when meta is missing). An empty corpus is allowed. |
| `KnowledgeBase.Build` | knowledge_base.py:54-68 | Returns the error `CheckCorpus` names when there is one. Otherwise returns a fresh index whose lists hold the corpus's ids, texts and metas in corpus order. |
| `KnowledgeBase.RankIndices` | knowledge_base.py:103-110 | Sets `k = min(top_k, n)` and returns exactly `k` distinct in-range indices. Their scores do not increase, and no omitted entry outscores a returned one. The result is a full permutation when `top_k >= n`. This holds on both the full-sort path and the partial-selection path. |
| `KnowledgeBase.VectorDatabase.Search` | knowledge_base.py:85-120 | Returns exactly `min(top_k, n)` records (none when the index is empty). They come from distinct in-range entries. Scores do not increase along the list, and no omitted entry outscores a returned one. Each record holds the stored id, text and meta and that entry's score. When `top_k >= n` the entries are a permutation of all `n`. `top_k` defaults to 5. |
| `AgentService.GetSales` | main.py:57-60 | Echoes `year` and `month` and sets `sales = 100 * year * month`. The sales figure is 0 exactly when the year or the month is 0. |
| `AgentService.GetSalesExample` | main.py:58-60 | `get_sales(2024, 3)` is `{2024, 3, 607200}`. |
| `AgentService.GetSalesOutOfRangeMonths` | main.py:58-60 | No month range check: month 0 gives sales 0, and month 13 gives `1300 * year`. |
| `AgentService.KeepTraceParts` | main.py:86-87 | Every kept part has a `part_kind` in {`user-prompt`, `tool-call`, `tool-return`} and comes from the input. The filter never lengthens the list. |
| `AgentService.Trace` | main.py:83-88 | Every element of a trace has a qualifying `part_kind`. |
| `AgentService.KeepDistributes` | main.py:84-87 | Filtering a concatenation is filtering each part and concatenating. |
| `AgentService.TraceIsFilteredFlatten` | main.py:83-88 | The nested comprehension equals the filter applied to the flattened parts (message order, then part order). |
| `AgentService.KeepIsSubsequence` | main.py:84-87 | The kept parts appear in the input in the same order, so nothing is reordered. |
| `AgentService.KeepCounts` | main.py:87 | A qualifying part occurs in the output exactly as often as in the input, so nothing is dropped. A part with any other kind, or with no kind, never occurs. |
| `AgentService.KeepUnchangedIffAllQualify` | main.py:87 | The filter leaves a list unchanged if and only if every part in it qualifies. |
| `AgentService.TraceFilterIdempotent` | main.py:83-88 | Re-applying the filter to a trace leaves it unchanged. |
| `AgentService.TraceAppend` | main.py:84-85 | The trace of two runs of messages placed one after the other is the two traces concatenated. |
| `AgentService.PartlessMessageContributesNothing` | main.py:86 | A message with no `parts` key adds nothing to the trace, wherever it stands. |
| `AgentService.AppState.Startup` | main.py:69 | The chat history starts empty. |
| `AgentService.AppState.Shutdown` | main.py:71 | The chat history is empty after shutdown. |
| `AgentService.AppState.QueryAgent` | main.py:79-89 | The agent run gets the question and the stored history. If the run raises, the error propagates and the history is unchanged. Otherwise the stored history is exactly the run's full message list, replacing the old value, and the reply carries the run's output, the trace of its new messages and its usage. |

## Left out

- Embedding and normalisation (knowledge_base.py:58-59, 71-81, 89-100): the sentence-embedding model, the float32 L2 normalisation with its zero-norm fallback, and the dot products are an opaque model plus floating-point numerics. `Search` takes the resulting scores as the real sequence `sims`.
- `KnowledgeBase.VectorDatabase.Search`: `top_k` is a natural number. On a non-empty index, a negative `top_k` makes `k = min(top_k, n)` negative. numpy's negative-index rules then return `n + top_k` records, or raise when `k - 1 < -n`. That behaviour is not modelled. On an empty index, `search` returns `[]` for every `top_k`, negative ones included (knowledge_base.py:86-87).
- Tie order: `argsort` and `argpartition` are not stable. The model allows any order among equal scores and fixes no secondary key. `SelectBest` (repeated best-of-the-rest swaps) is one such order, not numpy's introselect/quicksort.
- Metadata copies: `dict(self.metas[i])` copies the dictionary so that callers cannot alias the stored one. Maps are values in Dafny, so copying and aliasing are not represented.
- A corpus entry whose `meta` key is present but holds `None` is not modelled. The source stores `None`, and `dict(None)` in `search` raises `TypeError`. Entries that are not dictionaries are not modelled either. Ids, texts and metadata values are modelled as strings. The source stores `d["id"]` and `d["text"]` as they are (knowledge_base.py:61-62). A non-string id or text, or one that is `None`, is rejected only later, when `search` builds a `ProductDescription` (knowledge_base.py:113-115). That failure is not modelled.
- The agent run (`agent.run`, main.py:80), tool registration (main.py:53-64), the system prompt and `to_jsonable_python`: these are library internals that are not visible. `QueryAgent` receives the run as a function of the question and the history. Messages are modelled in their JSON form, and a part's fields other than `part_kind` are one opaque `content` string.
- `product_descriptions` (main.py:62-64): a one-line delegation to `search`.
- `get_current_date` (main.py:54-55): a clock read.
- HTTP routing, the response model, status codes, `lifespan` as an async context manager, environment variables and model construction (main.py:30-38, 67-80): I/O and async wiring. Only the history's initialisation and clearing are modelled.
- Concurrency: the source assumes one writer of the chat history and has no locking, cancellation or iteration cap. The model has no concurrent access either.
- The module-level `corpus` literal and the `vector_searcher` singleton (knowledge_base.py:15-50, 123): data and startup wiring.
