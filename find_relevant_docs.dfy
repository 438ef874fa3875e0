/**
 * `bm25_search`: one lexical query against the corpus index, shaped into
 * candidate records. The search engine is the parameter `search`, a
 * partial function from (query, size) to a response; its ranking is not
 * modelled.
 */
module FindRelevantDocs {
  import opened Wrappers
  import opened PyValue

  const TOP_K: int := 50

  /** One element of `resp["hits"]["hits"]`; either key may be missing. */
  datatype Hit = Hit(source: Option<Record>, score: Option<real>)

  /** The outer `resp["hits"]` object, whose inner `hits` list may be missing. */
  datatype HitsBlock = HitsBlock(hits: Option<seq<Hit>>)

  /** A search response, whose `hits` object may be missing. */
  datatype Response = Response(hits: Option<HitsBlock>)

  /**
   * A candidate document: the four keys `bm25_search` fills, plus the
   * `ce_score` key the reranker adds later (None while absent).
   */
  datatype Candidate = Candidate(docid: Value, title: Value, text: Value, score: real, ceScore: Option<real>)

  /** `resp.get("hits", {}).get("hits", [])`. */
  function ResponseHits(resp: Response): (hits: seq<Hit>)
    ensures resp.hits.None? ==> hits == []
    ensures resp.hits.Some? && resp.hits.value.hits.None? ==> hits == []
    ensures resp.hits.Some? && resp.hits.value.hits.Some? ==> hits == resp.hits.value.hits.value
  {
    match resp.hits
    case None => []
    case Some(block) => block.hits.GetOr([])
  }

  /** The candidate built from one hit, with the defaults of `bm25_search`. */
  function ShapeHit(h: Hit): (c: Candidate)
    ensures var src := h.source.GetOr(map[]);
      && ("docid" in src ==> c.docid == src["docid"])
      && ("docid" !in src ==> c.docid == Null)
      && ("title" in src ==> c.title == src["title"])
      && ("title" !in src ==> c.title == Str(""))
      && ("text" in src ==> c.text == src["text"])
      && ("text" !in src ==> c.text == Str(""))
    ensures h.score.Some? ==> c.score == h.score.value
    ensures h.score.None? ==> c.score == 0.0
    ensures c.ceScore.None?
  {
    var src := h.source.GetOr(map[]);
    Candidate(GetOr(src, "docid", Null), GetOr(src, "title", Str("")), GetOr(src, "text", Str("")),
              h.score.GetOr(0.0), None)
  }

  /** The result list of `bm25_search(es, query, top_k)`. */
  function Bm25Results(search: (string, int) --> Response, query: string, topK: int): (results: seq<Candidate>)
    requires query != "" ==> search.requires(query, topK)
    ensures query == "" ==> results == []
    ensures query != "" ==>
      var hits := ResponseHits(search(query, topK));
      |results| == |hits| && forall i :: 0 <= i < |hits| ==> results[i] == ShapeHit(hits[i])
  {
    if query == "" then []
    else
      var hits := ResponseHits(search(query, topK));
      seq(|hits|, i requires 0 <= i < |hits| => ShapeHit(hits[i]))
  }

  /**
   * `bm25_search`. An empty query returns at once: `search` is not applied,
   * so any backend whatsoever (one that always fails included) may be passed.
   */
  method Bm25Search(search: (string, int) --> Response, query: string, topK: int) returns (results: seq<Candidate>)
    requires query != "" ==> search.requires(query, topK)
    ensures results == Bm25Results(search, query, topK)
  {
    if query == "" {
      return [];
    }
    var resp := search(query, topK);
    var hits := ResponseHits(resp);
    results := [];
    for i := 0 to |hits|
      invariant |results| == i
      invariant forall j :: 0 <= j < i ==> results[j] == ShapeHit(hits[j])
    {
      var h := hits[i];
      var src := h.source.GetOr(map[]);
      results := results + [Candidate(GetOr(src, "docid", Null), GetOr(src, "title", Str("")),
                                      GetOr(src, "text", Str("")), h.score.GetOr(0.0), None)];
    }
  }
}
