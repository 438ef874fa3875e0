/**
 * The topics file: tab-separated rows `qid<TAB>query`, loaded into a dict
 * from qid to query text. Both run builders load it the same way.
 */
module Topics {
  import opened Wrappers
  import opened PyText
  import opened PyDict

  /** One row of the topics file as the csv reader splits it on tabs. */
  type Row = seq<string>

  /**
   * What one row contributes: its integer qid and its query text (the
   * second field), or None for a row that is skipped.
   */
  function ParseTopicRow(row: Row): (r: Option<(int, string)>)
    ensures r.Some? <==> |row| >= 2 && ParseInt(row[0]).Some?
    ensures r.Some? ==> r.value.0 == ParseInt(row[0]).value && r.value.1 == row[1]
  {
    if row == [] || |row| < 2 then None
    else match ParseInt(row[0])
      case None => None
      case Some(qid) => Some((qid, row[1]))
  }

  /** Fields after the second play no part. */
  lemma ExtraFieldsIgnored(row: Row, extra: seq<string>)
    requires |row| >= 2
    ensures ParseTopicRow(row + extra) == ParseTopicRow(row)
  {
    assert (row + extra)[0] == row[0] && (row + extra)[1] == row[1];
  }

  /** The loop body of `load_queries`: `queries[qid] = query` for an accepted row. */
  function AddRow(queries: Dict<int, string>, row: Row): (r: Dict<int, string>)
    ensures ParseTopicRow(row).None? ==> r == queries
    ensures ParseTopicRow(row).Some? ==>
      var (qid, query) := ParseTopicRow(row).value;
      && Get(r, qid) == Some(query)
      && (forall k :: k != qid ==> Get(r, k) == Get(queries, k))
      && Keys(r) == (if qid in Keys(queries) then Keys(queries) else Keys(queries) + [qid])
    ensures Valid(queries) ==> Valid(r)
  {
    match ParseTopicRow(row)
    case None => queries
    case Some((qid, query)) => Put(queries, qid, query)
  }

  /** The dict `load_queries` returns for the rows of the file. */
  function QueriesFrom(rows: seq<Row>): (queries: Dict<int, string>)
    ensures Valid(queries)
  {
    if rows == [] then Empty()
    else AddRow(QueriesFrom(rows[..|rows| - 1]), rows[|rows| - 1])
  }

  // ----------------------------------------------------- reference definitions

  /** The qids of the accepted rows, in file order, repeats included. */
  function AcceptedQids(rows: seq<Row>): seq<int> {
    if rows == [] then []
    else
      var front := AcceptedQids(rows[..|rows| - 1]);
      match ParseTopicRow(rows[|rows| - 1])
      case None => front
      case Some((qid, _)) => front + [qid]
  }

  /** `s` with every repeat of an earlier element removed. */
  function FirstOccurrences(s: seq<int>): seq<int> {
    if s == [] then []
    else
      var front := FirstOccurrences(s[..|s| - 1]);
      if s[|s| - 1] in s[..|s| - 1] then front else front + [s[|s| - 1]]
  }

  /** The query text of the last accepted row with this qid, if any. */
  function LastQuery(rows: seq<Row>, qid: int): Option<string> {
    if rows == [] then None
    else
      var r := ParseTopicRow(rows[|rows| - 1]);
      if r.Some? && r.value.0 == qid then Some(r.value.1)
      else LastQuery(rows[..|rows| - 1], qid)
  }

  lemma {:induction false} FirstOccurrencesMembers(s: seq<int>, x: int)
    ensures x in FirstOccurrences(s) <==> x in s
  {
    if s != [] {
      FirstOccurrencesMembers(s[..|s| - 1], x);
      assert s == s[..|s| - 1] + [s[|s| - 1]];
    }
  }

  /**
   * The dict's keys are the accepted qids in order of FIRST appearance:
   * a repeated qid keeps the position where it was first inserted.
   */
  lemma {:induction false} QueriesFromKeys(rows: seq<Row>)
    ensures Keys(QueriesFrom(rows)) == FirstOccurrences(AcceptedQids(rows))
  {
    if rows != [] {
      var front := rows[..|rows| - 1];
      QueriesFromKeys(front);
      match ParseTopicRow(rows[|rows| - 1])
      case None =>
      case Some((qid, _)) =>
        var a := AcceptedQids(front) + [qid];
        assert a[..|a| - 1] == AcceptedQids(front);
        FirstOccurrencesMembers(AcceptedQids(front), qid);
    }
  }

  /** The text stored under a qid is that of the last accepted row with that qid. */
  lemma {:induction false} QueriesFromGet(rows: seq<Row>, qid: int)
    ensures Get(QueriesFrom(rows), qid) == LastQuery(rows, qid)
  {
    if rows != [] {
      QueriesFromGet(rows[..|rows| - 1], qid);
    }
  }

  /** A qid is loaded exactly when some accepted row carries it. */
  lemma {:induction false} QueriesFromHasKey(rows: seq<Row>, qid: int)
    ensures qid in Keys(QueriesFrom(rows)) <==> qid in AcceptedQids(rows)
  {
    QueriesFromKeys(rows);
    FirstOccurrencesMembers(AcceptedQids(rows), qid);
  }
}
