# Retrieval evaluation harness: indexing, BM25 retrieval, cross-encoder reranking, run files

This project models the record-level core of a small retrieval-evaluation
harness (`lab_2/source`). The harness has four steps:

- It indexes a corpus of documents (`docid`, `title`, `text`) and a file of
  relevance judgments ("qrels") into a full-text search engine.
- For each topic it retrieves the top 50 documents by BM25 over title and text.
- It can rerank those candidates with a cross-encoder that scores
  (query, document text) pairs.
- It writes the ranked lists as TREC run files, one line
  `qid Q0 docid rank score run_id` per ranked document.

The model states, in Dafny, what each core function computes. It then proves what the harness relies on:

- which records become bulk actions, and what the indices hold afterwards;
- how the topics dict is filled;
- that an empty query never reaches the search engine;
- that an empty candidate list never reaches the model;
- that reranking returns a permutation sorted by `ce_score`, high to low, and stable for ties;
- that every query's lines in a run are its ranked list with ranks 1..n in list order;
- that a run line reads back as the entry it was written from.

Modules, following the source files:

| module | models |
|---|---|
| `CreateIndex` (`create_index.dfy`) | `create_index.py`: corpus iteration and the two bulk action generators |
| `IndexStore` (`index_store.dfy`) | what a bulk request leaves in an index, for upsert by `_id` |
| `FindRelevantDocs` (`find_relevant_docs.dfy`) | `find_relevant_docs.py`: `bm25_search` |
| `Topics` (`topics.dfy`) | the `load_queries` rules shared by `build_run.py` and `reranker.py` |
| `BuildRun` (`build_run.dfy`) | `build_run.py`: `load_queries` and the lexical run writer |
| `Reranker` (`reranker.dfy`) | `reranker.py`: pairs, reranking, and the reranked run writer |
| `StableSort` (`stable_sort.dfy`) | `sorted(..., reverse=True)` as a stable descending insertion sort |
| `RunFormat` (`run_format.dfy`) | run entries, run lines, and reading a line back |
| `PyText`, `PyDict`, `PyValue`, `Wrappers` | `str.strip`/`str.split`/`int()`/f-string integers, ordered `dict`, field values that may be `None`, `Option`/`Result` |

The search engine and the cross-encoder are parameters:
- `search: (string, int) --> Response` takes the query and `size`.
- `predict: seq<Pair> --> seq<real>` takes the pairs.

Both are partial functions. The operation that would call one asks for its
precondition only when the source actually calls it. So a backend that
may never be called (precondition `false`) is a legal argument for an
empty query or an empty candidate list. This holds for `Bm25Search`,
`Bm25Results`, `Rerank` and `RerankWithCrossEncoder`. The run writers and
their specifications (`BuildRun.WriteRun`, `Bm25Run`, `Reranker.Reranked`,
`WriteRerankRun`, `RerankRunPerQuery`) take total backends (`->`).

Float rendering in the f-string (`{score}`) is the parameter
`render: real -> string`.

Behaviours of the code that are easy to misread, and one assumption about the engine:
- **Whitespace-only queries.** `bm25_search` returns early only for the
  empty string (`if not query`), so a whitespace-only query is sent to the
  search engine.
- **Score list length.** The scores are attached with `zip`, so the model
  does not assume one score per pair. With fewer scores than candidates,
  some candidate has no `ce_score`, and the sort's key lookup fails.
  `Reranker.RerankWithTooFewScores` shows this failure case. Surplus scores
  are ignored.
- **BM25 run order.** The BM25 run is written in the engine's result
  order and is never re-sorted. Non-increasing scores are proved only for
  the reranked run, where the sort makes them hold.
- **Upsert.** Upsert-by-`_id` for the bulk requests is an assumption stated in
  `IndexStore`. The search engine's own semantics are not part of this model.

## Model

| member | source | states |
|---|---|---|
| `CreateIndex.SelectDataset` | lab_2/source/create_index.py:56-63 | A plain sequence is used as is. For a mapping, the "train" split is used when present and not None, otherwise the value under the first key. An empty mapping fails (`next` on no keys), and a chosen split that is None fails. |
| `CreateIndex.NormalizeDoc` | lab_2/source/create_index.py:66-70 | `docid` is read with `.get` (None when the key is missing). `title` and `text` default to "" only when the key is missing; a stored value, None included, is kept. |
| `CreateIndex.CorpusDocs` | lab_2/source/create_index.py:55-70 | One normalized record per document of the selected dataset, in order; the dataset's error is propagated. |
| `CreateIndex.IterCorpusDocs` | lab_2/source/create_index.py:55-70 | The imperative `iter_corpus_docs` returns exactly `CorpusDocs(corpus)`, errors included. |
| `CreateIndex.DocActions` | lab_2/source/create_index.py:74-82 | No more actions than documents. |
| `CreateIndex.DocActionsMembers` | lab_2/source/create_index.py:76-82 | An action is generated iff its source is a corpus document whose docid is not None. It targets `sw_corpus`, with that docid as `_id` and the document as `_source`. |
| `CreateIndex.CorpusActions` | lab_2/source/create_index.py:73-84 | The generator loop with its `continue` yields exactly `DocActions` of the iterated documents, or the corpus error. |
| `CreateIndex.LastSourceOfDocActions` | lab_2/source/create_index.py:76-84 | The last action sent under a docid carries the last document with that docid. |
| `CreateIndex.CorpusIndexAt` | lab_2/source/create_index.py:84 | Starting from whatever the index already held (`ensure_doc_index` keeps an existing one), after the bulk request it has an entry under `id` iff it had one before or some document has docid `id`. That entry is the last such document, or the old entry when no document has that docid. |
| `CreateIndex.ParseQrelsLine` | lab_2/source/create_index.py:91-112 | A whitespace-only line gives nothing. A line gives an action iff it splits into exactly 4 fields whose first and fourth are integers. The action targets `sw_qrels` with `_id` `"{qid}_{docid}"` and source (qid, field 3, rel). |
| `CreateIndex.IterationFieldIgnored` | lab_2/source/create_index.py:97 | Lines that differ only in the second (iteration) field give the same action. |
| `CreateIndex.AcceptedQrels` | lab_2/source/create_index.py:88-112 | At most one action per line. Every action targets `sw_qrels`, and its `_id` is built from its own qid and docid. |
| `CreateIndex.QrelsActions` | lab_2/source/create_index.py:87-112 | The line loop with its three `continue`s yields exactly `AcceptedQrels(lines)`. |
| `CreateIndex.QrelId` | lab_2/source/create_index.py:106 | `f"{qid}_{doc_id}"`: the first underscore sits right after the qid's decimal, which comes before it, and the docid follows it. |
| `CreateIndex.FirstUnderscore` | lab_2/source/create_index.py:106 | The first `_` of a string (or its length): no `_` before it. |
| `CreateIndex.SplitQrelIdInverse` | lab_2/source/create_index.py:106 | `"{qid}_{docid}"` splits back at its first underscore into the same qid and docid. |
| `CreateIndex.QrelIdInjective` | lab_2/source/create_index.py:106 | Two judgments share an `_id` iff they have the same qid and docid. |
| `CreateIndex.LastSourceOfQrels` | lab_2/source/create_index.py:104-112 | The last action sent under `"{qid}_{docid}"` carries the judgment of the last accepted line for that pair. |
| `CreateIndex.QrelsIndexAt` | lab_2/source/create_index.py:114 | Starting from whatever the index already held (`ensure_qrels_index` keeps an existing one), the judgments index has an entry for (qid, docid) iff it had one before or some accepted line judges that pair. The entry is the last such judgment, or the old entry when no line judges the pair. |
| `CreateIndex.QrelsIndexKeys` | lab_2/source/create_index.py:105-114 | If every `_id` already in the judgments index is `"{qid}_{docid}"` of the judgment stored under it (an empty index qualifies), the bulk request keeps that so, and every `_id` splits back into its judgment's qid and docid. |
| `IndexStore.LastSource` | lab_2/source/create_index.py:84 | None iff no action has this `_id`; otherwise the source of an action with this `_id`. |
| `IndexStore.BulkUpsertAt` | lab_2/source/create_index.py:84 | After a bulk request an `_id` is present iff it was before or some action has it. Its document is the last such action's source, or the old document when no action has it. |
| `IndexStore.BulkUpsertIdempotent` | lab_2/source/create_index.py:114 | Sending the same bulk request twice leaves the index as sending it once. |
| `FindRelevantDocs.ResponseHits` | lab_2/source/find_relevant_docs.py:23 | `resp.get("hits", {}).get("hits", [])`: the inner hit list, or empty when either level is missing. |
| `FindRelevantDocs.ShapeHit` | lab_2/source/find_relevant_docs.py:26-35 | `_source` defaults to an empty record. `docid` defaults to None, `title` and `text` to "", and `_score` to 0.0. No `ce_score` yet. |
| `FindRelevantDocs.Bm25Results` | lab_2/source/find_relevant_docs.py:9-37 | The empty query gives [] and needs nothing of `search`. Any other query gives one shaped candidate per hit of `search(query, top_k)`, in hit order. |
| `FindRelevantDocs.Bm25Search` | lab_2/source/find_relevant_docs.py:9-37 | The loop returns exactly `Bm25Results`, and it applies `search` only to a non-empty query. |
| `Topics.ParseTopicRow` | lab_2/source/build_run.py:19-28 | A row is accepted iff it has at least two fields and the first is an integer. It contributes (that integer, the second field). |
| `Topics.ExtraFieldsIgnored` | lab_2/source/build_run.py:25-28 | Fields after the second do not change what a row contributes. |
| `Topics.AddRow` | lab_2/source/build_run.py:19-29 | An unaccepted row leaves the dict as it was. An accepted row sets its qid to its query, appending the qid to the key order only when new, and leaves every other key unchanged. Keys stay distinct. |
| `Topics.QueriesFrom` | lab_2/source/build_run.py:16-30 | The loaded dict never has a repeated key. |
| `Topics.QueriesFromKeys` | lab_2/source/build_run.py:29 | The dict's key order is the accepted qids in order of first appearance: a repeated qid keeps its first position. |
| `Topics.QueriesFromGet` | lab_2/source/build_run.py:29 | The text under a qid is the query of the last accepted row with that qid. |
| `Topics.QueriesFromHasKey` | lab_2/source/build_run.py:18-29 | A qid is loaded iff some accepted row carries it. |
| `BuildRun.LoadQueries` | lab_2/source/build_run.py:11-30 | The row loop with its three `continue`s builds exactly `QueriesFrom(rows)`. |
| `BuildRun.WriteRun` | lab_2/source/build_run.py:40-49 | The nested loop writes exactly the lines of the run: queries in dict order, each query's BM25 results ranked from 1 with their BM25 scores, run id "bm25". |
| `BuildRun.Bm25RunEntries` | lab_2/source/build_run.py:41-49 | Every entry of the lexical run carries run id "bm25" and the qid of a loaded query. |
| `BuildRun.Bm25RunPerQuery` | lab_2/source/build_run.py:41-49 | For every loaded query, the run's entries with its qid are its BM25 results, ranked 1..n in result order, each with that result's docid and score. A query with no results has no entries. |
| `Reranker.LoadQueries` | lab_2/source/reranker.py:13-26 | The loop with its combined guard builds exactly `QueriesFrom(rows)`, the same dict as the lexical run's loader. |
| `Reranker.DocText` | lab_2/source/reranker.py:36-41 | "title. text" when both are non-empty, otherwise whichever is non-empty, or "". A None field counts as "". |
| `Reranker.CePairs` | lab_2/source/reranker.py:34-43 | One pair per candidate, in order: the query and that candidate's document text. |
| `Reranker.BuildCePairs` | lab_2/source/reranker.py:29-43 | The append loop returns exactly `CePairs`. |
| `Reranker.AttachScores` | lab_2/source/reranker.py:53-54 | `zip` semantics: for each position with a score, the candidate gets that score as `ce_score` and is otherwise unchanged. Candidates past the end of the score list are left as they were. |
| `Reranker.AttachCeScores` | lab_2/source/reranker.py:53-54 | The in-place loop leaves the array holding exactly `AttachScores` of its old contents. |
| `Reranker.SortByCeScore` | lab_2/source/reranker.py:57 | The key lookup fails iff some candidate has no `ce_score`. Otherwise the result is a permutation of the candidates, sorted by `ce_score` high to low, with equal scores kept in input order. |
| `Reranker.RerankOutcome` | lab_2/source/reranker.py:46-58 | An empty list reranks to []. Otherwise reranking fails iff some candidate past the end of the score list has no `ce_score` of its own. A success is a permutation of the zipped candidates, all scored, sorted by `ce_score` high to low. |
| `Reranker.RerankWithCrossEncoder` | lab_2/source/reranker.py:46-58 | Returns `Rerank` of the input, so the result does not depend on `batch_size`. It applies `predict` only to a non-empty list. It leaves the candidate array holding the zip of candidates and scores. |
| `Reranker.RerankEmpty` | lab_2/source/reranker.py:47-48 | An empty candidate list reranks to [] for any model, including one that can never be called. |
| `Reranker.RerankWithEnoughScores` | lab_2/source/reranker.py:50-58 | With one score per pair, candidate i gets `ce_score` = score i, with nothing else changed, and reranking succeeds. The output is a permutation of the scored list, sorted by `ce_score` high to low, and candidates with equal `ce_score` keep their input order. |
| `Reranker.RerankWithTooFewScores` | lab_2/source/reranker.py:53-57 | With fewer scores than candidates, an unscored last candidate makes the key lookup in `sorted` fail. |
| `Reranker.RerankTwo` | lab_2/source/reranker.py:57 | Two candidates whose texts have equal length, reranked by a length scorer, keep their input order, each with that length as `ce_score`. |
| `Reranker.RerankByLengthExample` | lab_2/source/reranker.py:46-58 | Fixed example: d1 ("Cats", "Cats are mammals") and d2 ("Dogs", "Dogs are mammals") scored by text length both score 22, and the stable sort keeps d1 before d2. |
| `Reranker.RerankedOutcome` | lab_2/source/reranker.py:75-77 | An empty query reranks to []. A successful rerank holds as many candidates as BM25 returned, sorted by `ce_score` high to low. |
| `Reranker.Written` | lab_2/source/reranker.py:73-83 | The queries before this index rerank successfully, and the query at it fails. |
| `Reranker.RerankRunEntries` | lab_2/source/reranker.py:73-83 | Every entry of the reranked run carries run id "bm25+cross-encoder" and the qid of a query written before the first failing rerank. |
| `Reranker.WriteRerankRun` | lab_2/source/reranker.py:72-83 | Exactly the lines for the queries before the first failing rerank are written, in dict order, ranked from 1 by `ce_score`, run id "bm25+cross-encoder". A failure is reported iff some query fails. |
| `Reranker.RerankRunPerQuery` | lab_2/source/reranker.py:73-83 | With one score per pair, every query is written. Its entries are its reranked BM25 candidates with ranks 1..n, and `ce_score` never increases as the rank grows. |
| `StableSort.Insert` | lab_2/source/reranker.py:57 | Inserting adds exactly one element. |
| `StableSort.InsertMultiset` | lab_2/source/reranker.py:57 | Inserting adds exactly `x` to the multiset. |
| `StableSort.InsertSorted` | lab_2/source/reranker.py:57 | Inserting into a descending list keeps it descending. |
| `StableSort.SortDesc` | lab_2/source/reranker.py:57 | `sorted(..., reverse=True)` keeps the length, is a permutation, and is descending by key. |
| `StableSort.SortDescStable` | lab_2/source/reranker.py:57 | For every key value, the elements with that key come out in their input order. |
| `StableSort.SortDescUnique` | lab_2/source/reranker.py:57 | Any descending arrangement that keeps every key class in input order is `SortDesc`, so stability determines the result. |
| `RunFormat.RankedEntries` | lab_2/source/build_run.py:43-48 | `enumerate(..., start=1)`: entry i carries rank i + 1, the i-th document's docid and its score. |
| `RunFormat.WriteRanked` | lab_2/source/build_run.py:43-49 | The inner loop writes exactly the lines of `RankedEntries`, in order. |
| `RunFormat.RunOfEntries` | lab_2/source/build_run.py:41-49 | Each entry of a run belongs to one of its queries: it has that query's qid, the run's id, and a rank between 1 and the length of that query's result list. |
| `RunFormat.ForQidRunOf` | lab_2/source/build_run.py:41-49 | When qids are distinct, a run's entries for one query's qid are exactly that query's ranked list. |
| `RunFormat.Lines` | lab_2/source/build_run.py:48-49 | One rendered line per entry, in order. |
| `RunFormat.EntryFields` | lab_2/source/build_run.py:48 | Six fields. The first and fourth read back with `int()` as the qid and the rank, the second is "Q0", and the rest are the docid text, the rendered score and the run id. |
| `RunFormat.EntryLineText` | lab_2/source/reranker.py:82 | A run line, built as the fields joined by single spaces, is exactly the f-string `"{qid} Q0 {docid} {rank} {score} {run_id}\n"`. |
| `RunFormat.RunLineRoundTrip` | lab_2/source/build_run.py:48 | A written line splits back into the entry's qid, "Q0", docid text, rank, rendered score and run id. This holds when the docid text, the rendered score and the run id are single words. |
| `PyText.Strip` | lab_2/source/create_index.py:91 | The result is a substring of the line whose removed prefix and suffix are all whitespace, and it has no whitespace left at either end. |
| `PyText.StripEmptyIff` | lab_2/source/create_index.py:91-93 | A line is skipped as empty iff it is all whitespace. |
| `PyText.Split` | lab_2/source/create_index.py:94 | Every field `split()` returns is non-empty and has no whitespace. |
| `PyText.SplitStrip` | lab_2/source/create_index.py:91-94 | Splitting the stripped line gives the same fields as splitting the line. |
| `PyText.ParseInt` | lab_2/source/create_index.py:99-100 | An accepted integer literal is a single non-empty word. |
| `PyText.IntToString` | lab_2/source/create_index.py:106 | The decimal of an int is a non-empty word of digits and `-`. |
| `PyText.ParseIntToString` | lab_2/source/create_index.py:106 | `int(f"{n}") == n`. |
| `PyDict.Put` | lab_2/source/build_run.py:29 | `d[k] = v` keeps keys distinct, and it keeps the key order, appending `k` only when new. Afterwards `k` maps to `v` and every other key is unchanged. |
| `PyDict.Get` | lab_2/source/create_index.py:57 | None iff the key is absent; otherwise the value stored under it. |
| `PyDict.FirstKey` | lab_2/source/create_index.py:59 | `next(iter(d.keys()))`: None iff the dict is empty, else its first key. |
| `PyValue.GetOr` | lab_2/source/create_index.py:67-69 | `.get(k, default)`: the stored value when the key is present, else the default. |
| `PyValue.OrEmpty` | lab_2/source/reranker.py:36-37 | `x or ""` on a string field: None and "" give "", anything else is itself. |
| `PyValue.ValueText` | lab_2/source/build_run.py:48 | A string renders as itself, None as "None". |

## Left out

- `metrics.py` is not part of this model: it delegates every metric to an external evaluation library whose code is not available.
- Elasticsearch itself is not modelled: the client, index creation with its analyzer and mappings, `es.count`, and BM25 scoring and ranking. Search is a parameter, and bulk upsert by `_id` is assumed.
- The cross-encoder's internals and its batching are not modelled: `predict` is a parameter, and `batch_size` is passed through without effect.
- File I/O and the csv reader are not modelled: rows, lines and output lines are sequences. `pickle` loading, the progress prints and the interactive `__main__` of `find_relevant_docs.py` are left out as printing or I/O.
- `PyText.ParseInt` models `int()` on an optional sign followed by ASCII digits only. It leaves out surrounding whitespace, `_` separators and non-ASCII digits, which Python also accepts.
- Float rendering (`repr` of a float inside the f-string) is the parameter `render`; NaN and infinities are not modelled.
- Candidates are values, rerank gets them as an array, and `d["ce_score"] = s` replaces element i. The aliasing between the BM25 list and the reranked dicts is not modelled.
- A `_source`, `hits` or `_score` present but None in a search response is not modelled: only a missing key is.
- Document fields other than strings or None (numbers, lists) are not modelled.
- `RunFormat.RunLineRoundTrip`: holds only when the docid text, the rendered score and the run id are non-empty and without whitespace. The run format cannot represent other values, and "bm25+cross-encoder" and "bm25" qualify.
- `BuildRun.Bm25RunPerQuery`: states no score order, because the lexical run is written in the engine's order and that order is not modelled.
