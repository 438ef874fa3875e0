/**
 * `build_run.py`: load the topics, run one BM25 query per topic in the
 * dict's order, and write the lexical run (`run_id` "bm25").
 */
module BuildRun {
  import opened PyText
  import opened PyDict
  import opened Topics
  import opened FindRelevantDocs
  import opened RunFormat

  const RUN_ID: string := "bm25"

  /** `load_queries`: fill the dict row by row, skipping malformed rows. */
  method LoadQueries(rows: seq<Row>) returns (queries: Dict<int, string>)
    ensures queries == QueriesFrom(rows)
  {
    queries := Empty();
    for i := 0 to |rows|
      invariant queries == QueriesFrom(rows[..i])
    {
      assert rows[..i + 1][..i] == rows[..i];
      var row := rows[i];
      if row == [] {
        continue;
      }
      if |row| < 2 {
        continue;
      }
      var qid := ParseInt(row[0]);
      if qid.None? {
        continue;
      }
      var query := row[1];
      queries := Put(queries, qid.value, query);
    }
    assert rows[..|rows|] == rows;
  }

  /** The score a bm25 run line carries: the candidate's `score`. */
  function Bm25Score(c: Candidate): real {
    c.score
  }

  /** The ranked list behind each query of the bm25 run. */
  function Results(search: (string, int) -> Response): string -> seq<Candidate> {
    query => Bm25Results(search, query, TOP_K)
  }

  /** The entries of the bm25 run for the loaded queries, in the dict's order. */
  function Bm25Run(queries: Dict<int, string>, search: (string, int) -> Response): seq<RunEntry> {
    RunOf(queries.entries, Results(search), Bm25Score, RUN_ID)
  }

  /** Every entry of the bm25 run carries `RUN_ID` and the qid of a loaded query. */
  lemma Bm25RunEntries(queries: Dict<int, string>, search: (string, int) -> Response, i: nat)
    requires i < |Bm25Run(queries, search)|
    ensures Bm25Run(queries, search)[i].runId == RUN_ID && Bm25Run(queries, search)[i].qid in Keys(queries)
  {
    var k := RunOfEntries(queries.entries, Results(search), Bm25Score, RUN_ID, i);
    assert Keys(queries)[k] == queries.entries[k].0;
  }

  /**
   * The `__main__` loop: for each (qid, query) in dict order, search, then
   * write one line per result, ranks from 1 in result order, no re-sort.
   */
  method WriteRun(queries: Dict<int, string>, search: (string, int) -> Response, render: real -> string)
    returns (lines: seq<string>)
    ensures lines == Lines(Bm25Run(queries, search), render)
  {
    var items := queries.entries;
    lines := [];
    for i := 0 to |items|
      invariant lines == Lines(RunOf(items[..i], Results(search), Bm25Score, RUN_ID), render)
    {
      var (qid, query) := items[i];
      var results := Bm25Search(search, query, TOP_K);
      var ranked := WriteRanked(qid, results, Bm25Score, RUN_ID, render);
      LinesAppend(RunOf(items[..i], Results(search), Bm25Score, RUN_ID), RankedEntries(qid, results, Bm25Score, RUN_ID), render);
      lines := lines + ranked;
      RunOfSnoc(items, i, Results(search), Bm25Score, RUN_ID);
    }
    assert items[..|items|] == items;
  }

  /**
   * For every loaded query, the run's entries with its qid are its BM25
   * results ranked 1..n in result order, each with the result's docid and
   * score; a query with no results has no entries.
   */
  lemma Bm25RunPerQuery(queries: Dict<int, string>, search: (string, int) -> Response, k: nat)
    requires Valid(queries) && k < |queries.entries|
    ensures var (qid, query) := queries.entries[k];
      var es := ForQid(Bm25Run(queries, search), qid);
      var results := Bm25Results(search, query, TOP_K);
      && |es| == |results|
      && forall i :: 0 <= i < |es| ==>
           es[i] == RunEntry(qid, results[i].docid, i + 1, results[i].score, RUN_ID)
  {
    var items := queries.entries;
    forall i, j | 0 <= i < j < |items| ensures items[i].0 != items[j].0 {
      assert Keys(queries)[i] == items[i].0 && Keys(queries)[j] == items[j].0;
    }
    ForQidRunOf(items, Results(search), Bm25Score, RUN_ID, k);
  }
}
