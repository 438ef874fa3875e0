/**
 * Building the two indices: the corpus documents (`sw_corpus`) and the
 * relevance judgments read from the qrels file (`sw_qrels`). Only the
 * record-level logic is modelled: which records become bulk actions, with
 * which `_id` and `_source`; the bulk request itself is IndexStore.
 */
module CreateIndex {
  import opened Wrappers
  import opened PyText
  import opened PyDict
  import opened PyValue
  import opened IndexStore

  const DOC_INDEX_NAME: string := "sw_corpus"
  const QRELS_INDEX_NAME: string := "sw_qrels"

  // =========================================================== corpus

  /** The value stored under a split name of a mapping corpus (it may be None). */
  datatype SplitValue = NoSplit | Docs(docs: seq<Record>)

  /** A loaded corpus: a mapping from split name to split, or a plain sequence of documents. */
  datatype Corpus = MappingCorpus(splits: Dict<string, SplitValue>) | SequenceCorpus(docs: seq<Record>)

  /**
   * The two ways `iter_corpus_docs` fails: `next(iter(...))` on a mapping
   * with no keys, or iterating a chosen split that is None.
   */
  datatype CorpusError = EmptyMapping | SplitIsNone

  /** The record `iter_corpus_docs` yields for one document. */
  datatype CorpusDoc = CorpusDoc(docid: Value, title: Value, text: Value)

  /** The "train" split is used when it is present and not None. */
  predicate HasTrainSplit(splits: Dict<string, SplitValue>) {
    Get(splits, "train").Some? && Get(splits, "train").value.Docs?
  }

  /** The documents `iter_corpus_docs` iterates over. */
  function SelectDataset(corpus: Corpus): (r: Result<seq<Record>, CorpusError>)
    ensures corpus.SequenceCorpus? ==> r == Success(corpus.docs)
    ensures corpus.MappingCorpus? && HasTrainSplit(corpus.splits) ==>
      r == Success(Get(corpus.splits, "train").value.docs)
    ensures corpus.MappingCorpus? && !HasTrainSplit(corpus.splits) && Keys(corpus.splits) == [] ==>
      r == Failure(EmptyMapping)
    ensures corpus.MappingCorpus? && !HasTrainSplit(corpus.splits) && Keys(corpus.splits) != [] ==>
      var first := Get(corpus.splits, Keys(corpus.splits)[0]);
      first.Some? && r == (if first.value.NoSplit? then Failure(SplitIsNone) else Success(first.value.docs))
  {
    match corpus
    case SequenceCorpus(docs) => Success(docs)
    case MappingCorpus(splits) =>
      var split: Option<SplitValue> :=
        if HasTrainSplit(splits) then Some(Get(splits, "train").value)
        else match FirstKey(splits)
          case None => None
          case Some(k) => Some(Get(splits, k).value);
      match split
      case None => Failure(EmptyMapping)
      case Some(NoSplit) => Failure(SplitIsNone)
      case Some(Docs(ds)) => Success(ds)
  }

  /** One document with `docid` read by `.get` and `title`, `text` defaulted to "". */
  function NormalizeDoc(doc: Record): (d: CorpusDoc)
    ensures "docid" in doc ==> d.docid == doc["docid"]
    ensures "docid" !in doc ==> d.docid == Null
    ensures "title" in doc ==> d.title == doc["title"]
    ensures "title" !in doc ==> d.title == Str("")
    ensures "text" in doc ==> d.text == doc["text"]
    ensures "text" !in doc ==> d.text == Str("")
  {
    CorpusDoc(GetOr(doc, "docid", Null), GetOr(doc, "title", Str("")), GetOr(doc, "text", Str("")))
  }

  /** Everything `iter_corpus_docs` yields: one record per document, in order. */
  function CorpusDocs(corpus: Corpus): (r: Result<seq<CorpusDoc>, CorpusError>)
    ensures SelectDataset(corpus).Failure? ==> r == Failure(SelectDataset(corpus).error)
    ensures SelectDataset(corpus).Success? ==>
      r.Success? && |r.value| == |SelectDataset(corpus).value|
      && forall i :: 0 <= i < |r.value| ==> r.value[i] == NormalizeDoc(SelectDataset(corpus).value[i])
  {
    match SelectDataset(corpus)
    case Failure(e) => Failure(e)
    case Success(ds) => Success(seq(|ds|, i requires 0 <= i < |ds| => NormalizeDoc(ds[i])))
  }

  /** `iter_corpus_docs`: choose the split, then yield one defaulted record per document. */
  method IterCorpusDocs(corpus: Corpus) returns (r: Result<seq<CorpusDoc>, CorpusError>)
    ensures r == CorpusDocs(corpus)
  {
    var dataset: seq<Record>;
    match corpus {
      case MappingCorpus(splits) =>
        var split: SplitValue;
        var train := Get(splits, "train");
        if train.None? || train.value.NoSplit? {
          var firstKey := FirstKey(splits);
          if firstKey.None? {
            return Failure(EmptyMapping);
          }
          split := Get(splits, firstKey.value).value;
        } else {
          split := train.value;
        }
        if split.NoSplit? {
          return Failure(SplitIsNone);
        }
        dataset := split.docs;
      case SequenceCorpus(docs) =>
        dataset := docs;
    }
    assert SelectDataset(corpus) == Success(dataset);
    var out: seq<CorpusDoc> := [];
    for i := 0 to |dataset|
      invariant |out| == i
      invariant forall j :: 0 <= j < i ==> out[j] == NormalizeDoc(dataset[j])
    {
      var doc := dataset[i];
      out := out + [CorpusDoc(GetOr(doc, "docid", Null), GetOr(doc, "title", Str("")), GetOr(doc, "text", Str("")))];
    }
    assert out == seq(|dataset|, i requires 0 <= i < |dataset| => NormalizeDoc(dataset[i]));
    return Success(out);
  }

  /** The actions of `bulk_index_corpus`: documents without a docid are dropped. */
  function DocActions(docs: seq<CorpusDoc>): (actions: seq<Action<CorpusDoc>>)
    ensures |actions| <= |docs|
  {
    if docs == [] then []
    else
      var front := docs[..|docs| - 1];
      var d := docs[|docs| - 1];
      DocActions(front) + (if d.docid.Null? then [] else [Action(DOC_INDEX_NAME, d.docid.s, d)])
  }

  /**
   * An action is sent exactly for each document whose docid is not None:
   * into `sw_corpus`, with the docid as `_id` and the document as `_source`.
   */
  lemma {:induction false} DocActionsMembers(docs: seq<CorpusDoc>, a: Action<CorpusDoc>)
    ensures a in DocActions(docs) <==>
      a.source in docs && a.source.docid.Str? && a == Action(DOC_INDEX_NAME, a.source.docid.s, a.source)
  {
    if docs != [] {
      var front, d := docs[..|docs| - 1], docs[|docs| - 1];
      DocActionsMembers(front, a);
      assert docs == front + [d];
    }
  }

  /** `bulk_index_corpus.gen_actions`: the loop over `iter_corpus_docs` skipping a None docid. */
  method CorpusActions(corpus: Corpus) returns (r: Result<seq<Action<CorpusDoc>>, CorpusError>)
    ensures CorpusDocs(corpus).Failure? ==> r == Failure(CorpusDocs(corpus).error)
    ensures CorpusDocs(corpus).Success? ==> r == Success(DocActions(CorpusDocs(corpus).value))
  {
    var docs := IterCorpusDocs(corpus);
    if docs.Failure? {
      return Failure(docs.error);
    }
    var ds := docs.value;
    var actions: seq<Action<CorpusDoc>> := [];
    for i := 0 to |ds|
      invariant actions == DocActions(ds[..i])
    {
      var d := ds[i];
      assert ds[..i + 1][..i] == ds[..i];
      if d.docid == Null {
        continue;
      }
      actions := actions + [Action(DOC_INDEX_NAME, d.docid.s, d)];
    }
    assert ds[..|ds|] == ds;
    return Success(actions);
  }

  /** The last document carrying this docid (reference definition). */
  function LastDocWithId(docs: seq<CorpusDoc>, id: string): Option<CorpusDoc> {
    if docs == [] then None
    else if docs[|docs| - 1].docid == Str(id) then Some(docs[|docs| - 1])
    else LastDocWithId(docs[..|docs| - 1], id)
  }

  lemma {:induction false} LastSourceOfDocActions(docs: seq<CorpusDoc>, id: string)
    ensures LastSource(DocActions(docs), id) == LastDocWithId(docs, id)
  {
    if docs != [] {
      var front, d := docs[..|docs| - 1], docs[|docs| - 1];
      LastSourceOfDocActions(front, id);
      var a := DocActions(docs);
      if d.docid.Str? {
        var act := Action(DOC_INDEX_NAME, d.docid.s, d);
        assert a == DocActions(front) + [act];
        assert a[..|a| - 1] == DocActions(front) && a[|a| - 1] == act;
        assert act.id == id <==> d.docid == Str(id);
      } else {
        assert a == DocActions(front) + [];
        assert DocActions(front) + [] == DocActions(front);
        assert LastDocWithId(docs, id) == LastDocWithId(front, id);
      }
    }
  }

  /**
   * The corpus index after the bulk request, starting from whatever the
   * index already held (`ensure_doc_index` keeps an existing index): under
   * each docid of the corpus, the last document with that docid; under any
   * other `_id`, the old entry, if there was one.
   */
  lemma CorpusIndexAt(table: map<string, CorpusDoc>, docs: seq<CorpusDoc>, id: string)
    ensures id in BulkUpsert(table, DocActions(docs)) <==> id in table || LastDocWithId(docs, id).Some?
    ensures LastDocWithId(docs, id).Some? ==>
      BulkUpsert(table, DocActions(docs))[id] == LastDocWithId(docs, id).value
    ensures LastDocWithId(docs, id).None? && id in table ==>
      BulkUpsert(table, DocActions(docs))[id] == table[id]
  {
    BulkUpsertAt(table, DocActions(docs), id);
    LastSourceOfDocActions(docs, id);
  }

  // =========================================================== qrels

  /** The `_source` of a judgment document. */
  datatype Qrel = Qrel(queryId: int, docId: string, relevance: int)

  /** `f"{qid}_{doc_id}"`. */
  function QrelId(qid: int, docId: string): (id: string)
    ensures var n := |IntToString(qid)|;
      |id| == n + 1 + |docId| && FirstUnderscore(id) == n && id[..n] == IntToString(qid) && id[n + 1..] == docId
  {
    var q := IntToString(qid);
    var id := q + "_" + docId;
    assert forall j :: 0 <= j < |q| ==> id[j] == q[j] && q[j] != '_';
    assert id[|q|] == '_';
    assert id[..|q|] == q;
    assert id[|q| + 1..] == docId;
    id
  }

  /**
   * One line of the qrels file: `qid iter docid rel`, exactly four
   * whitespace-separated fields with an integer first and fourth field.
   * The iteration field is not looked at.
   */
  function ParseQrelsLine(line: string): (r: Option<Action<Qrel>>)
    ensures AllSpace(line) ==> r.None?
    ensures r.Some? <==>
      var f := Split(line);
      |f| == 4 && ParseInt(f[0]).Some? && ParseInt(f[3]).Some?
    ensures r.Some? ==>
      var f := Split(line);
      var qid := ParseInt(f[0]).value;
      r.value == Action(QRELS_INDEX_NAME, QrelId(qid, f[2]), Qrel(qid, f[2], ParseInt(f[3]).value))
  {
    SplitStrip(line);
    StripEmptyIff(line);
    var l := Strip(line);
    if l == "" then
      SplitAllSpace(line);
      None
    else
      var parts := Split(l);
      if |parts| != 4 then None
      else match (ParseInt(parts[0]), ParseInt(parts[3]))
        case (Some(qid), Some(rel)) =>
          Some(Action(QRELS_INDEX_NAME, QrelId(qid, parts[2]), Qrel(qid, parts[2], rel)))
        case _ => None
  }

  /** Two lines whose fields differ at most in the iteration field give the same action. */
  lemma IterationFieldIgnored(line1: string, line2: string)
    requires |Split(line1)| == 4 && |Split(line2)| == 4
    requires Split(line1)[0] == Split(line2)[0]
    requires Split(line1)[2] == Split(line2)[2]
    requires Split(line1)[3] == Split(line2)[3]
    ensures ParseQrelsLine(line1) == ParseQrelsLine(line2)
  {
  }

  /** The actions `bulk_index_qrels.gen_actions` yields, in file order. */
  function AcceptedQrels(lines: seq<string>): (actions: seq<Action<Qrel>>)
    ensures |actions| <= |lines|
    ensures forall i :: 0 <= i < |actions| ==>
      && actions[i].index == QRELS_INDEX_NAME
      && actions[i].id == QrelId(actions[i].source.queryId, actions[i].source.docId)
  {
    if lines == [] then []
    else
      var front := AcceptedQrels(lines[..|lines| - 1]);
      match ParseQrelsLine(lines[|lines| - 1])
      case None => front
      case Some(a) => front + [a]
  }

  /** `bulk_index_qrels.gen_actions`: the line loop with its three `continue`s. */
  method QrelsActions(lines: seq<string>) returns (actions: seq<Action<Qrel>>)
    ensures actions == AcceptedQrels(lines)
  {
    actions := [];
    for i := 0 to |lines|
      invariant actions == AcceptedQrels(lines[..i])
    {
      assert lines[..i + 1][..i] == lines[..i];
      var line := Strip(lines[i]);
      if line == "" {
        continue;
      }
      var parts := Split(line);
      if |parts| != 4 {
        continue;
      }
      var qidStr, docId, relStr := parts[0], parts[2], parts[3];
      var qid := ParseInt(qidStr);
      var rel := ParseInt(relStr);
      if qid.None? || rel.None? {
        continue;
      }
      actions := actions + [Action(QRELS_INDEX_NAME, QrelId(qid.value, docId), Qrel(qid.value, docId, rel.value))];
    }
    assert lines[..|lines|] == lines;
  }

  /** The position of the first underscore, or the length when there is none. */
  function FirstUnderscore(s: string): (i: nat)
    ensures i <= |s|
    ensures forall j :: 0 <= j < i ==> s[j] != '_'
    ensures i < |s| ==> s[i] == '_'
  {
    if s == [] || s[0] == '_' then 0 else 1 + FirstUnderscore(s[1..])
  }

  /** Reading a judgment `_id` back into its qid and docid (the inverse of QrelId). */
  function SplitQrelId(id: string): Option<(int, string)> {
    var i := FirstUnderscore(id);
    if i == |id| then None
    else match ParseInt(id[..i])
      case None => None
      case Some(qid) => Some((qid, id[i + 1..]))
  }

  /** The decimal of the qid has no underscore, so the `_id` splits back uniquely. */
  lemma SplitQrelIdInverse(qid: int, docId: string)
    ensures SplitQrelId(QrelId(qid, docId)) == Some((qid, docId))
  {
    ParseIntToString(qid);
  }

  /** Two judgments share an `_id` exactly when they share qid and docid. */
  lemma QrelIdInjective(qid1: int, docId1: string, qid2: int, docId2: string)
    ensures QrelId(qid1, docId1) == QrelId(qid2, docId2) <==> qid1 == qid2 && docId1 == docId2
  {
    SplitQrelIdInverse(qid1, docId1);
    SplitQrelIdInverse(qid2, docId2);
  }

  /** The judgment of the last accepted line for (qid, docid) (reference definition). */
  function LastQrel(lines: seq<string>, qid: int, docId: string): Option<Qrel> {
    if lines == [] then None
    else
      var a := ParseQrelsLine(lines[|lines| - 1]);
      if a.Some? && a.value.source.queryId == qid && a.value.source.docId == docId then Some(a.value.source)
      else LastQrel(lines[..|lines| - 1], qid, docId)
  }

  lemma {:induction false} LastSourceOfQrels(lines: seq<string>, qid: int, docId: string)
    ensures LastSource(AcceptedQrels(lines), QrelId(qid, docId)) == LastQrel(lines, qid, docId)
  {
    if lines != [] {
      LastSourceOfQrels(lines[..|lines| - 1], qid, docId);
      var a := ParseQrelsLine(lines[|lines| - 1]);
      if a.Some? {
        QrelIdInjective(a.value.source.queryId, a.value.source.docId, qid, docId);
      }
    }
  }

  /**
   * The judgments index is keyed by (qid, docid): starting from whatever
   * the index already held (`ensure_qrels_index` keeps an existing index),
   * the entry for a pair is the judgment of the last accepted line for that
   * pair, or the old entry when no line judges it.
   */
  lemma QrelsIndexAt(table: map<string, Qrel>, lines: seq<string>, qid: int, docId: string)
    ensures var id := QrelId(qid, docId);
      id in BulkUpsert(table, AcceptedQrels(lines)) <==> id in table || LastQrel(lines, qid, docId).Some?
    ensures LastQrel(lines, qid, docId).Some? ==>
      BulkUpsert(table, AcceptedQrels(lines))[QrelId(qid, docId)] == LastQrel(lines, qid, docId).value
    ensures var id := QrelId(qid, docId);
      LastQrel(lines, qid, docId).None? && id in table ==> BulkUpsert(table, AcceptedQrels(lines))[id] == table[id]
  {
    BulkUpsertAt(table, AcceptedQrels(lines), QrelId(qid, docId));
    LastSourceOfQrels(lines, qid, docId);
  }

  /** The judgments index keeps every `_id` as `"{qid}_{docid}"` of the judgment stored under it. */
  predicate WellKeyed(table: map<string, Qrel>) {
    forall k :: k in table ==> k == QrelId(table[k].queryId, table[k].docId)
  }

  /**
   * A bulk request of accepted judgments keeps the index well keyed, and
   * every `_id` in it reads back as the qid and docid stored under it. An
   * empty index is well keyed, so this covers a fresh index too.
   */
  lemma QrelsIndexKeys(table: map<string, Qrel>, lines: seq<string>, id: string)
    requires WellKeyed(table)
    requires id in BulkUpsert(table, AcceptedQrels(lines))
    ensures var q := BulkUpsert(table, AcceptedQrels(lines))[id];
      id == QrelId(q.queryId, q.docId) && SplitQrelId(id) == Some((q.queryId, q.docId))
  {
    var actions := AcceptedQrels(lines);
    BulkUpsertAt(table, actions, id);
    var q := BulkUpsert(table, actions)[id];
    if LastSource(actions, id).Some? {
      var i :| 0 <= i < |actions| && actions[i].id == id && actions[i].source == LastSource(actions, id).value;
    } else {
      assert q == table[id];
    }
    SplitQrelIdInverse(q.queryId, q.docId);
  }
}
