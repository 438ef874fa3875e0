/**
 * `reranker.py`: rerank each query's BM25 candidates with a cross-encoder
 * and write the reranked run (`run_id` "bm25+cross-encoder"). The
 * cross-encoder is the parameter `predict`, from a list of
 * (query, document text) pairs to a list of scores.
 */
module Reranker {
  import opened Wrappers
  import opened PyText
  import opened PyDict
  import opened PyValue
  import opened Topics
  import opened FindRelevantDocs
  import opened StableSort
  import opened RunFormat

  const BM25_TOP_K: int := 50
  const RUN_ID: string := "bm25+cross-encoder"
  /** The default `batch_size` of `rerank_with_cross_encoder`. */
  const BATCH_SIZE: int := 32

  /** A cross-encoder input: the query and one document's text. */
  type Pair = (string, string)

  /** `load_queries` of the reranker: the same rules, written as one combined guard. */
  method LoadQueries(rows: seq<Row>) returns (queries: Dict<int, string>)
    ensures queries == QueriesFrom(rows)
  {
    queries := Empty();
    for i := 0 to |rows|
      invariant queries == QueriesFrom(rows[..i])
    {
      assert rows[..i + 1][..i] == rows[..i];
      var row := rows[i];
      if row == [] || |row| < 2 {
        continue;
      }
      var qid := ParseInt(row[0]);
      if qid.None? {
        continue;
      }
      var query := row[1];
      queries := Put(queries, qid.value, query);
    }
    assert rows[..|rows|] == rows;
  }

  // ============================================================ pairs

  /**
   * The text scored for a document: "title. text" when both are non-empty,
   * otherwise the non-empty one (or ""). None counts as "".
   */
  function DocText(title: Value, text: Value): (s: string)
    ensures OrEmpty(title) != "" && OrEmpty(text) != "" ==> s == OrEmpty(title) + ". " + OrEmpty(text)
    ensures OrEmpty(title) == "" ==> s == OrEmpty(text)
    ensures OrEmpty(text) == "" ==> s == OrEmpty(title)
  {
    var t := OrEmpty(title);
    var x := OrEmpty(text);
    if t != "" && x != "" then t + ". " + x
    else if t != "" then t else x
  }

  /** The pairs `build_ce_pairs` returns, as a value. */
  function CePairs(query: string, docs: seq<Candidate>): (pairs: seq<Pair>)
    ensures |pairs| == |docs|
    ensures forall i :: 0 <= i < |docs| ==> pairs[i].0 == query && pairs[i].1 == DocText(docs[i].title, docs[i].text)
  {
    seq(|docs|, i requires 0 <= i < |docs| => (query, DocText(docs[i].title, docs[i].text)))
  }

  /** `build_ce_pairs`: one pair per document, in order, each with the query. */
  method BuildCePairs(query: string, docs: seq<Candidate>) returns (pairs: seq<Pair>)
    ensures pairs == CePairs(query, docs)
  {
    pairs := [];
    for i := 0 to |docs|
      invariant |pairs| == i
      invariant forall j :: 0 <= j < i ==> pairs[j] == (query, DocText(docs[j].title, docs[j].text))
    {
      var d := docs[i];
      var title := OrEmpty(d.title);
      var text := OrEmpty(d.text);
      var docText;
      if title != "" && text != "" {
        docText := title + ". " + text;
      } else {
        docText := if title != "" then title else text;
      }
      pairs := pairs + [(query, docText)];
    }
  }

  // ============================================================ rerank

  /** `sorted` reading `x["ce_score"]` from a candidate that has none: a KeyError. */
  datatype RerankError = MissingCeScore

  /** The sort key `x["ce_score"]`; only read once every candidate has one. */
  function CeScore(c: Candidate): real {
    c.ceScore.GetOr(0.0)
  }

  /** `for d, s in zip(docs, scores): d["ce_score"] = s`: zip stops at the shorter list. */
  function AttachScores(docs: seq<Candidate>, scores: seq<real>): (scored: seq<Candidate>)
    ensures |scored| == |docs|
    ensures forall i :: 0 <= i < |docs| && i < |scores| ==>
      scored[i].ceScore == Some(scores[i]) && scored[i].(ceScore := docs[i].ceScore) == docs[i]
    ensures forall i :: |scores| <= i < |docs| ==> scored[i] == docs[i]
  {
    seq(|docs|, i requires 0 <= i < |docs| =>
      if i < |scores| then docs[i].(ceScore := Some(scores[i])) else docs[i])
  }

  predicate AllScored(docs: seq<Candidate>) {
    forall i :: 0 <= i < |docs| ==> docs[i].ceScore.Some?
  }

  /** `sorted(docs, key=lambda x: x["ce_score"], reverse=True)`. */
  function SortByCeScore(docs: seq<Candidate>): (r: Result<seq<Candidate>, RerankError>)
    ensures r.Failure? <==> exists i :: 0 <= i < |docs| && docs[i].ceScore.None?
    ensures r.Failure? ==> r.error == MissingCeScore
    ensures r.Success? ==>
      && multiset(r.value) == multiset(docs)
      && SortedDesc(r.value, CeScore)
      && forall k :: WithKey(r.value, CeScore, k) == WithKey(docs, CeScore, k)
  {
    if AllScored(docs) then
      assert forall k :: WithKey(SortDesc(docs, CeScore), CeScore, k) == WithKey(docs, CeScore, k) by {
        forall k ensures WithKey(SortDesc(docs, CeScore), CeScore, k) == WithKey(docs, CeScore, k) {
          SortDescStable(docs, CeScore, k);
        }
      }
      Success(SortDesc(docs, CeScore))
    else Failure(MissingCeScore)
  }

  /** What `rerank_with_cross_encoder` returns. */
  function Rerank(predict: seq<Pair> --> seq<real>, query: string, docs: seq<Candidate>): Result<seq<Candidate>, RerankError>
    requires docs != [] ==> predict.requires(CePairs(query, docs))
  {
    if docs == [] then Success([])
    else SortByCeScore(AttachScores(docs, predict(CePairs(query, docs))))
  }

  /**
   * A rerank fails exactly when some candidate past the end of the model's
   * scores had no `ce_score` of its own; a successful one keeps every
   * candidate, all scored, highest score first.
   */
  lemma RerankOutcome(predict: seq<Pair> --> seq<real>, query: string, docs: seq<Candidate>)
    requires docs != [] ==> predict.requires(CePairs(query, docs))
    ensures var r := Rerank(predict, query, docs);
      && (docs == [] ==> r == Success([]))
      && (docs != [] ==>
            var scores := predict(CePairs(query, docs));
            && (r.Failure? <==> exists i :: |scores| <= i < |docs| && docs[i].ceScore.None?)
            && (r.Success? ==> multiset(r.value) == multiset(AttachScores(docs, scores))))
      && (r.Success? ==>
            && |r.value| == |docs|
            && SortedDesc(r.value, CeScore)
            && forall i :: 0 <= i < |r.value| ==> r.value[i].ceScore.Some?)
  {
    if docs != [] {
      var scores := predict(CePairs(query, docs));
      var scored := AttachScores(docs, scores);
      var r := SortByCeScore(scored);
      assert r.Failure? <==> exists i :: |scores| <= i < |docs| && docs[i].ceScore.None? by {
        if i :| |scores| <= i < |docs| && docs[i].ceScore.None? {
          assert scored[i] == docs[i];
        }
        if i :| 0 <= i < |scored| && scored[i].ceScore.None? {
          assert !(i < |scores|);
          assert docs[i] == scored[i];
        }
      }
      if r.Success? {
        assert |r.value| == |multiset(r.value)| == |multiset(scored)| == |docs|;
        forall i | 0 <= i < |r.value| ensures r.value[i].ceScore.Some? {
          assert r.value[i] in multiset(scored);
        }
      }
    }
  }

  /**
   * `rerank_with_cross_encoder`. An empty list returns at once without
   * applying `predict`; otherwise each candidate in `docs` is given the
   * score at its position, and the scored candidates are returned
   * stably sorted by that score, highest first. `batchSize` is passed
   * through to the model and has no effect on the scores.
   */
  method RerankWithCrossEncoder(predict: seq<Pair> --> seq<real>, query: string, docs: array<Candidate>, batchSize: int)
    returns (r: Result<seq<Candidate>, RerankError>)
    requires docs.Length > 0 ==> predict.requires(CePairs(query, docs[..]))
    modifies docs
    ensures r == Rerank(predict, query, old(docs[..]))
    ensures docs.Length > 0 ==> docs[..] == AttachScores(old(docs[..]), predict(CePairs(query, old(docs[..]))))
  {
    if docs.Length == 0 {
      return Success([]);
    }
    var pairs := BuildCePairs(query, docs[..]);
    assert pairs == CePairs(query, docs[..]);
    var scores := predict(pairs);
    AttachCeScores(docs, scores);
    if exists j :: 0 <= j < docs.Length && docs[j].ceScore.None? {
      return Failure(MissingCeScore);
    }
    return Success(SortDesc(docs[..], CeScore));
  }

  /** `for d, s in zip(docs, scores): d["ce_score"] = float(s)`, in place. */
  method AttachCeScores(docs: array<Candidate>, scores: seq<real>)
    modifies docs
    ensures docs[..] == AttachScores(old(docs[..]), scores)
  {
    var n := if docs.Length < |scores| then docs.Length else |scores|;
    for i := 0 to n
      invariant forall j :: 0 <= j < i ==> docs[j] == old(docs[j]).(ceScore := Some(scores[j]))
      invariant forall j :: i <= j < docs.Length ==> docs[j] == old(docs[j])
    {
      docs[i] := docs[i].(ceScore := Some(scores[i]));
    }
    assert docs[..] == AttachScores(old(docs[..]), scores);
  }

  /** An empty candidate list reranks to [] whatever the model, one that always fails included. */
  lemma RerankEmpty(predict: seq<Pair> --> seq<real>, query: string)
    ensures Rerank(predict, query, []) == Success([])
  {
  }

  /**
   * With one score per pair, reranking succeeds; position i of the scored
   * list is candidate i with `ce_score` set to the i-th score; the output
   * is a permutation of the scored list, ordered by `ce_score` from high to
   * low, and candidates with equal scores keep their input order.
   */
  lemma RerankWithEnoughScores(predict: seq<Pair> --> seq<real>, query: string, docs: seq<Candidate>)
    requires docs != [] && predict.requires(CePairs(query, docs))
    requires |predict(CePairs(query, docs))| >= |docs|
    ensures var scores := predict(CePairs(query, docs));
      var scored := AttachScores(docs, scores);
      && (forall i :: 0 <= i < |docs| ==>
            scored[i].ceScore == Some(scores[i]) && scored[i].(ceScore := docs[i].ceScore) == docs[i])
      && Rerank(predict, query, docs).Success?
      && var out := Rerank(predict, query, docs).value;
         && multiset(out) == multiset(scored)
         && SortedDesc(out, CeScore)
         && forall k :: WithKey(out, CeScore, k) == WithKey(scored, CeScore, k)
  {
    var scored := AttachScores(docs, predict(CePairs(query, docs)));
    forall k ensures WithKey(SortDesc(scored, CeScore), CeScore, k) == WithKey(scored, CeScore, k) {
      SortDescStable(scored, CeScore, k);
    }
  }

  /**
   * With fewer scores than candidates, a candidate left without a score
   * makes the sort's key lookup fail.
   */
  lemma RerankWithTooFewScores(predict: seq<Pair> --> seq<real>, query: string, docs: seq<Candidate>)
    requires docs != [] && predict.requires(CePairs(query, docs))
    requires |predict(CePairs(query, docs))| < |docs|
    requires docs[|docs| - 1].ceScore.None?
    ensures Rerank(predict, query, docs) == Failure(MissingCeScore)
  {
    var scored := AttachScores(docs, predict(CePairs(query, docs)));
    assert scored[|docs| - 1].ceScore.None?;
  }

  /**
   * A fixed example: two candidates scored by the length of their document
   * text. Both texts are 22 characters long, so the tie keeps d1 first.
   */
  lemma RerankByLengthExample()
    ensures var d1 := Candidate(Str("d1"), Str("Cats"), Str("Cats are mammals"), 2.0, None);
      var d2 := Candidate(Str("d2"), Str("Dogs"), Str("Dogs are mammals"), 1.0, None);
      var byLength := (ps: seq<Pair>) => seq(|ps|, i requires 0 <= i < |ps| => |ps[i].1| as real);
      Rerank(byLength, "mammals", [d1, d2])
        == Success([d1.(ceScore := Some(22.0)), d2.(ceScore := Some(22.0))])
  {
    var d1 := Candidate(Str("d1"), Str("Cats"), Str("Cats are mammals"), 2.0, None);
    var d2 := Candidate(Str("d2"), Str("Dogs"), Str("Dogs are mammals"), 1.0, None);
    assert |DocText(d1.title, d1.text)| == 22;
    assert |DocText(d2.title, d2.text)| == 22;
    RerankTwo((ps: seq<Pair>) => seq(|ps|, i requires 0 <= i < |ps| => |ps[i].1| as real), "mammals", d1, d2);
  }

  /** Two candidates whose scores tie keep their order. */
  lemma RerankTwo(predict: seq<Pair> -> seq<real>, query: string, d1: Candidate, d2: Candidate)
    requires predict(CePairs(query, [d1, d2])) == [|DocText(d1.title, d1.text)| as real, |DocText(d2.title, d2.text)| as real]
    requires |DocText(d1.title, d1.text)| == |DocText(d2.title, d2.text)|
    ensures var n := |DocText(d1.title, d1.text)| as real;
      Rerank(predict, query, [d1, d2]) == Success([d1.(ceScore := Some(n)), d2.(ceScore := Some(n))])
  {
    var n := |DocText(d1.title, d1.text)| as real;
    var s1, s2 := d1.(ceScore := Some(n)), d2.(ceScore := Some(n));
    assert AttachScores([d1, d2], [n, n]) == [s1, s2];
    SortTwoTied(s1, s2);
  }

  lemma SortTwoTied(s1: Candidate, s2: Candidate)
    requires CeScore(s1) == CeScore(s2)
    ensures SortDesc([s1, s2], CeScore) == [s1, s2]
  {
    assert [s1, s2][..1] == [s1];
    assert SortDesc([s1], CeScore) == [s1] by {
      assert [s1][..0] == [];
    }
    assert Insert([s1], s2, CeScore) == [s1, s2] by {
      assert [s1][1..] == [];
    }
  }

  // ============================================================ run

  /** The reranked list behind one query: BM25 top 50, then rerank. */
  function Reranked(search: (string, int) -> Response, predict: seq<Pair> -> seq<real>, query: string)
    : Result<seq<Candidate>, RerankError>
  {
    Rerank(predict, query, Bm25Results(search, query, BM25_TOP_K))
  }

  /**
   * An empty query reranks to nothing; otherwise a successful rerank holds
   * the BM25 top 50, all of them, sorted by cross-encoder score.
   */
  lemma RerankedOutcome(search: (string, int) -> Response, predict: seq<Pair> -> seq<real>, query: string)
    ensures var r := Reranked(search, predict, query);
      && (query == "" ==> r == Success([]))
      && (r.Success? ==>
            |r.value| == |Bm25Results(search, query, BM25_TOP_K)| && SortedDesc(r.value, CeScore))
  {
    RerankOutcome(predict, query, Bm25Results(search, query, BM25_TOP_K));
  }

  function Results(search: (string, int) -> Response, predict: seq<Pair> -> seq<real>): string -> seq<Candidate> {
    query => match Reranked(search, predict, query)
      case Success(docs) => docs
      case Failure(_) => []
  }

  /** How many queries are written before the first whose rerank fails. */
  function Written(queries: seq<(int, string)>, search: (string, int) -> Response, predict: seq<Pair> -> seq<real>): (n: nat)
    ensures n <= |queries|
    ensures forall i :: 0 <= i < n ==> Reranked(search, predict, queries[i].1).Success?
    ensures n < |queries| ==> Reranked(search, predict, queries[n].1).Failure?
  {
    if queries == [] then 0
    else if Reranked(search, predict, queries[0].1).Failure? then 0
    else
      var n := Written(queries[1..], search, predict);
      assert forall i :: 0 <= i <= n && i < |queries| - 1 ==> queries[1..][i] == queries[i + 1];
      1 + n
  }

  /** The entries of the reranked run written for the first `n` queries. */
  function RerankRun(queries: seq<(int, string)>, search: (string, int) -> Response, predict: seq<Pair> -> seq<real>)
    : seq<RunEntry>
  {
    RunOf(queries[..Written(queries, search, predict)], Results(search, predict), CeScore, RUN_ID)
  }

  /**
   * Every entry of the reranked run carries `RUN_ID` and the qid of one of
   * the queries written before the first failing rerank.
   */
  lemma RerankRunEntries(queries: seq<(int, string)>, search: (string, int) -> Response,
                         predict: seq<Pair> -> seq<real>, i: nat)
    requires i < |RerankRun(queries, search, predict)|
    ensures var e := RerankRun(queries, search, predict)[i];
      e.runId == RUN_ID && exists k :: 0 <= k < Written(queries, search, predict) && e.qid == queries[k].0
  {
    var n := Written(queries, search, predict);
    var k := RunOfEntries(queries[..n], Results(search, predict), CeScore, RUN_ID, i);
    assert queries[..n][k] == queries[k];
  }

  /**
   * The `__main__` loop: for each (qid, query) in dict order, BM25 top 50,
   * rerank, then one line per reranked candidate with ranks from 1. A
   * failing rerank stops the run; the lines already written stay.
   */
  method WriteRerankRun(queries: Dict<int, string>, search: (string, int) -> Response,
                        predict: seq<Pair> -> seq<real>, render: real -> string)
    returns (lines: seq<string>, failure: Option<RerankError>)
    ensures lines == Lines(RerankRun(queries.entries, search, predict), render)
    ensures failure.None? <==> Written(queries.entries, search, predict) == |queries.entries|
  {
    var items := queries.entries;
    ghost var n := Written(items, search, predict);
    lines := [];
    for i := 0 to |items|
      invariant i <= n
      invariant lines == Lines(RunOf(items[..i], Results(search, predict), CeScore, RUN_ID), render)
    {
      var (qid, query) := items[i];
      var bm25Docs := Bm25Search(search, query, BM25_TOP_K);
      var docs := new Candidate[|bm25Docs|](j requires 0 <= j < |bm25Docs| => bm25Docs[j]);
      assert docs[..] == bm25Docs;
      var reranked := RerankWithCrossEncoder(predict, query, docs, BATCH_SIZE);
      if reranked.Failure? {
        assert i == n;
        return lines, Some(reranked.error);
      }
      var rerankedDocs := reranked.value;
      assert Results(search, predict)(query) == rerankedDocs;
      var ranked := WriteRanked(qid, rerankedDocs, CeScore, RUN_ID, render);
      LinesAppend(RunOf(items[..i], Results(search, predict), CeScore, RUN_ID), RankedEntries(qid, rerankedDocs, CeScore, RUN_ID), render);
      lines := lines + ranked;
      RunOfSnoc(items, i, Results(search, predict), CeScore, RUN_ID);
    }
    return lines, None;
  }

  /**
   * With a model that returns one score per pair, the whole run is written,
   * and for every loaded query the entries with its qid are its reranked
   * BM25 candidates, ranked 1..n, with `ce_score` never increasing as the
   * rank grows.
   */
  lemma RerankRunPerQuery(queries: Dict<int, string>, search: (string, int) -> Response,
                          predict: seq<Pair> -> seq<real>, k: nat)
    requires Valid(queries) && k < |queries.entries|
    requires forall ps :: |predict(ps)| == |ps|
    ensures Written(queries.entries, search, predict) == |queries.entries|
    ensures var (qid, query) := queries.entries[k];
      var es := ForQid(RerankRun(queries.entries, search, predict), qid);
      var bm25 := Bm25Results(search, query, BM25_TOP_K);
      && Reranked(search, predict, query).Success?
      && var out := Reranked(search, predict, query).value;
         && |out| == |bm25| && |es| == |out|
         && (forall i :: 0 <= i < |es| ==> es[i] == RunEntry(qid, out[i].docid, i + 1, CeScore(out[i]), RUN_ID))
         && (forall i, j :: 0 <= i < j < |es| ==> es[i].score >= es[j].score)
  {
    var items := queries.entries;
    forall q | q in items ensures Reranked(search, predict, q.1).Success? {
      var bm25 := Bm25Results(search, q.1, BM25_TOP_K);
      if bm25 != [] {
        RerankWithEnoughScores(predict, q.1, bm25);
      }
    }
    WrittenAll(items, search, predict);
    forall i, j | 0 <= i < j < |items| ensures items[i].0 != items[j].0 {
      assert Keys(queries)[i] == items[i].0 && Keys(queries)[j] == items[j].0;
    }
    assert items[..|items|] == items;
    ForQidRunOf(items, Results(search, predict), CeScore, RUN_ID, k);
    var bm25 := Bm25Results(search, items[k].1, BM25_TOP_K);
    if bm25 != [] {
      RerankWithEnoughScores(predict, items[k].1, bm25);
    }
  }

  lemma {:induction false} WrittenAll(queries: seq<(int, string)>, search: (string, int) -> Response, predict: seq<Pair> -> seq<real>)
    requires forall q :: q in queries ==> Reranked(search, predict, q.1).Success?
    ensures Written(queries, search, predict) == |queries|
  {
    if queries != [] {
      assert queries[0] in queries;
      forall q | q in queries[1..] ensures Reranked(search, predict, q.1).Success? {
        assert q in queries;
      }
      WrittenAll(queries[1..], search, predict);
    }
  }
}
