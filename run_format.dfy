/**
 * The TREC run format written by both run builders: one line
 * `qid Q0 docid rank score run_id` per ranked document, ranks counted from
 * 1 in list order.
 */
module RunFormat {
  import opened Wrappers
  import opened PyText
  import opened PyValue
  import opened FindRelevantDocs

  /** One line of a run file before it is rendered. */
  datatype RunEntry = RunEntry(qid: int, docid: Value, rank: int, score: real, runId: string)

  /**
   * `enumerate(docs, start=1)` turned into run entries: the document at list
   * position i gets rank i + 1 and the score `scoreOf` reads from it.
   */
  function RankedEntries(qid: int, docs: seq<Candidate>, scoreOf: Candidate -> real, runId: string): (es: seq<RunEntry>)
    ensures |es| == |docs|
    ensures forall i :: 0 <= i < |docs| ==>
      es[i] == RunEntry(qid, docs[i].docid, i + 1, scoreOf(docs[i]), runId)
  {
    seq(|docs|, i requires 0 <= i < |docs| => RunEntry(qid, docs[i].docid, i + 1, scoreOf(docs[i]), runId))
  }

  /**
   * The entries of a whole run: the queries in the given order, each with
   * its ranked list `resultsFor(query)`.
   */
  function RunOf(queries: seq<(int, string)>, resultsFor: string -> seq<Candidate>,
                 scoreOf: Candidate -> real, runId: string): seq<RunEntry>
  {
    if queries == [] then []
    else
      var (qid, query) := queries[|queries| - 1];
      RunOf(queries[..|queries| - 1], resultsFor, scoreOf, runId)
        + RankedEntries(qid, resultsFor(query), scoreOf, runId)
  }

  /**
   * Each entry of a run belongs to one of its queries `k`: it carries that
   * query's qid, the run's id, and a rank within that query's result list.
   */
  lemma {:induction false} RunOfEntries(queries: seq<(int, string)>, resultsFor: string -> seq<Candidate>,
                                        scoreOf: Candidate -> real, runId: string, i: nat) returns (k: nat)
    requires i < |RunOf(queries, resultsFor, scoreOf, runId)|
    ensures var e := RunOf(queries, resultsFor, scoreOf, runId)[i];
      && k < |queries|
      && e.runId == runId
      && e.qid == queries[k].0
      && 1 <= e.rank <= |resultsFor(queries[k].1)|
  {
    var front := queries[..|queries| - 1];
    var (qid, query) := queries[|queries| - 1];
    var head := RunOf(front, resultsFor, scoreOf, runId);
    var tail := RankedEntries(qid, resultsFor(query), scoreOf, runId);
    assert RunOf(queries, resultsFor, scoreOf, runId) == head + tail;
    if i < |head| {
      k := RunOfEntries(front, resultsFor, scoreOf, runId, i);
      assert front[k] == queries[k];
    } else {
      k := |queries| - 1;
      assert (head + tail)[i] == tail[i - |head|];
    }
  }

  /** The entries of a run that belong to one qid, in file order. */
  function ForQid(es: seq<RunEntry>, qid: int): seq<RunEntry> {
    if es == [] then []
    else ForQid(es[..|es| - 1], qid) + (if es[|es| - 1].qid == qid then [es[|es| - 1]] else [])
  }

  lemma {:induction false} ForQidAppend(a: seq<RunEntry>, b: seq<RunEntry>, qid: int)
    ensures ForQid(a + b, qid) == ForQid(a, qid) + ForQid(b, qid)
    decreases |b|
  {
    if b == [] {
      assert a + b == a;
    } else {
      var b' := b[..|b| - 1];
      assert (a + b)[..|a + b| - 1] == a + b';
      ForQidAppend(a, b', qid);
    }
  }

  lemma {:induction false} ForQidAll(es: seq<RunEntry>, qid: int)
    requires forall i :: 0 <= i < |es| ==> es[i].qid == qid
    ensures ForQid(es, qid) == es
  {
    if es != [] {
      ForQidAll(es[..|es| - 1], qid);
    }
  }

  lemma {:induction false} ForQidNone(es: seq<RunEntry>, qid: int)
    requires forall i :: 0 <= i < |es| ==> es[i].qid != qid
    ensures ForQid(es, qid) == []
  {
    if es != [] {
      ForQidNone(es[..|es| - 1], qid);
    }
  }

  lemma {:induction false} ForQidRunOfAbsent(queries: seq<(int, string)>, resultsFor: string -> seq<Candidate>,
                                             scoreOf: Candidate -> real, runId: string, qid: int)
    requires forall i :: 0 <= i < |queries| ==> queries[i].0 != qid
    ensures ForQid(RunOf(queries, resultsFor, scoreOf, runId), qid) == []
  {
    if queries != [] {
      var (q, text) := queries[|queries| - 1];
      ForQidRunOfAbsent(queries[..|queries| - 1], resultsFor, scoreOf, runId, qid);
      ForQidAppend(RunOf(queries[..|queries| - 1], resultsFor, scoreOf, runId),
                   RankedEntries(q, resultsFor(text), scoreOf, runId), qid);
      ForQidNone(RankedEntries(q, resultsFor(text), scoreOf, runId), qid);
    }
  }

  /**
   * When qids are distinct, the lines of a run that carry a query's qid are
   * exactly that query's ranked list: ranks 1..n in list order, and none at
   * all for a query with no results.
   */
  lemma {:induction false} ForQidRunOf(queries: seq<(int, string)>, resultsFor: string -> seq<Candidate>,
                                       scoreOf: Candidate -> real, runId: string, k: nat)
    requires k < |queries|
    requires forall i, j :: 0 <= i < j < |queries| ==> queries[i].0 != queries[j].0
    ensures ForQid(RunOf(queries, resultsFor, scoreOf, runId), queries[k].0)
         == RankedEntries(queries[k].0, resultsFor(queries[k].1), scoreOf, runId)
  {
    var n := |queries| - 1;
    var front := queries[..n];
    var (q, text) := queries[n];
    var qid := queries[k].0;
    var last := RankedEntries(q, resultsFor(text), scoreOf, runId);
    assert RunOf(queries, resultsFor, scoreOf, runId) == RunOf(front, resultsFor, scoreOf, runId) + last;
    ForQidAppend(RunOf(front, resultsFor, scoreOf, runId), last, qid);
    DistinctFront(queries);
    if k == n {
      ForQidRunOfAbsent(front, resultsFor, scoreOf, runId, qid);
      ForQidAll(last, qid);
    } else {
      assert front[k] == queries[k];
      ForQidRunOf(front, resultsFor, scoreOf, runId, k);
      ForQidNone(last, qid);
    }
  }

  /** Dropping the last query keeps qids distinct, and none of them is the last one's. */
  lemma DistinctFront(queries: seq<(int, string)>)
    requires |queries| > 0
    requires forall i, j :: 0 <= i < j < |queries| ==> queries[i].0 != queries[j].0
    ensures var front := queries[..|queries| - 1];
      && (forall i, j :: 0 <= i < j < |front| ==> front[i].0 != front[j].0)
      && (forall i :: 0 <= i < |front| ==> front[i].0 != queries[|queries| - 1].0)
  {
    var front := queries[..|queries| - 1];
    assert forall i :: 0 <= i < |front| ==> front[i] == queries[i];
  }

  /** Fields joined by single spaces. */
  function JoinSpace(fields: seq<string>): string {
    if fields == [] then ""
    else if |fields| == 1 then fields[0]
    else fields[0] + " " + JoinSpace(fields[1..])
  }

  /** The six fields of a run line, as the f-string renders them. */
  function EntryFields(e: RunEntry, render: real -> string): (f: seq<string>)
    ensures |f| == 6 && f[1] == "Q0"
    ensures ParseInt(f[0]) == Some(e.qid) && ParseInt(f[3]) == Some(e.rank)
    ensures f[2] == ValueText(e.docid) && f[4] == render(e.score) && f[5] == e.runId
  {
    ParseIntToString(e.qid);
    ParseIntToString(e.rank);
    [IntToString(e.qid), "Q0", ValueText(e.docid), IntToString(e.rank), render(e.score), e.runId]
  }

  /** `f"{qid} Q0 {docid} {rank} {score} {RUN_ID}\n"`; float formatting is `render`. */
  function EntryLine(e: RunEntry, render: real -> string): string {
    JoinSpace(EntryFields(e, render)) + "\n"
  }

  /** A run line is the f-string's text: the six fields, one space apart, then a newline. */
  lemma EntryLineText(e: RunEntry, render: real -> string)
    ensures EntryLine(e, render)
         == IntToString(e.qid) + " Q0 " + ValueText(e.docid) + " " + IntToString(e.rank)
            + " " + render(e.score) + " " + e.runId + "\n"
  {
    var f := EntryFields(e, render);
    var j4 := f[4] + " " + f[5];
    var j3 := f[3] + " " + j4;
    var j2 := f[2] + " " + j3;
    assert JoinSpace(f[4..]) == j4 by { assert f[4..][1..] == f[5..]; }
    assert JoinSpace(f[3..]) == j3 by { assert f[3..][1..] == f[4..]; }
    assert JoinSpace(f[2..]) == j2 by { assert f[2..][1..] == f[3..]; }
    assert JoinSpace(f[1..]) == "Q0" + " " + j2 by { assert f[1..][1..] == f[2..]; }
    var l1 := f[0] + " Q0 ";
    var l3 := l1 + f[2] + " ";
    var l5 := l3 + f[3] + " ";
    Assoc(f[0], " ", "Q0" + " " + j2);
    Assoc3(f[0] + " ", "Q0", " ", j2);
    assert f[0] + " " + "Q0" + " " == l1;
    Assoc3(l1, f[2], " ", j3);
    Assoc3(l3, f[3], " ", j4);
    Assoc3(l5, f[4], " ", f[5]);
  }

  lemma Assoc(x: string, a: string, b: string)
    ensures x + a + b == x + (a + b)
  {
  }

  lemma Assoc3(x: string, a: string, b: string, c: string)
    ensures x + (a + b + c) == x + a + b + c
  {
  }

  /** The lines written for a sequence of entries, in order. */
  function Lines(es: seq<RunEntry>, render: real -> string): (lines: seq<string>)
    ensures |lines| == |es|
    ensures forall i :: 0 <= i < |es| ==> lines[i] == EntryLine(es[i], render)
  {
    seq(|es|, i requires 0 <= i < |es| => EntryLine(es[i], render))
  }

  /**
   * The inner loop of both run writers: `enumerate(docs, start=1)`, one
   * line per document, ranks from 1 in list order.
   */
  method WriteRanked(qid: int, docs: seq<Candidate>, scoreOf: Candidate -> real, runId: string, render: real -> string)
    returns (lines: seq<string>)
    ensures lines == Lines(RankedEntries(qid, docs, scoreOf, runId), render)
  {
    lines := [];
    for j := 0 to |docs|
      invariant lines == Lines(RankedEntries(qid, docs[..j], scoreOf, runId), render)
    {
      var d := docs[j];
      var rank := j + 1;
      var e := RunEntry(qid, d.docid, rank, scoreOf(d), runId);
      RankedEntriesSnoc(qid, docs, j, scoreOf, runId);
      LinesSnoc(RankedEntries(qid, docs[..j], scoreOf, runId), e, render);
      lines := lines + [EntryLine(e, render)];
    }
    assert docs[..|docs|] == docs;
  }

  lemma RankedEntriesSnoc(qid: int, docs: seq<Candidate>, j: nat, scoreOf: Candidate -> real, runId: string)
    requires j < |docs|
    ensures RankedEntries(qid, docs[..j + 1], scoreOf, runId)
         == RankedEntries(qid, docs[..j], scoreOf, runId) + [RunEntry(qid, docs[j].docid, j + 1, scoreOf(docs[j]), runId)]
  {
  }

  lemma RunOfSnoc(queries: seq<(int, string)>, i: nat, resultsFor: string -> seq<Candidate>,
                  scoreOf: Candidate -> real, runId: string)
    requires i < |queries|
    ensures RunOf(queries[..i + 1], resultsFor, scoreOf, runId)
         == RunOf(queries[..i], resultsFor, scoreOf, runId) + RankedEntries(queries[i].0, resultsFor(queries[i].1), scoreOf, runId)
  {
    assert queries[..i + 1][..i] == queries[..i];
  }

  lemma LinesSnoc(es: seq<RunEntry>, e: RunEntry, render: real -> string)
    ensures Lines(es + [e], render) == Lines(es, render) + [EntryLine(e, render)]
  {
  }

  lemma LinesAppend(a: seq<RunEntry>, b: seq<RunEntry>, render: real -> string)
    ensures Lines(a + b, render) == Lines(a, render) + Lines(b, render)
  {
  }

  /** A run line as an evaluator reads it back: six fields, integer qid and rank, "Q0" second. */
  function ParseRunLine(line: string): Option<(int, string, int, string, string)> {
    var f := Split(line);
    if |f| != 6 || f[1] != "Q0" then None
    else match (ParseInt(f[0]), ParseInt(f[3]))
      case (Some(qid), Some(rank)) => Some((qid, f[2], rank, f[4], f[5]))
      case _ => None
  }

  lemma {:induction false} SplitJoinSpace(fields: seq<string>)
    requires |fields| > 0
    requires forall i :: 0 <= i < |fields| ==> IsWord(fields[i])
    ensures Split(JoinSpace(fields) + "\n") == fields
  {
    if |fields| == 1 {
      SplitLast(fields[0], "\n");
    } else {
      var rest := JoinSpace(fields[1..]) + "\n";
      assert JoinSpace(fields) + "\n" == fields[0] + [' '] + rest;
      SplitCons(fields[0], ' ', rest);
      SplitJoinSpace(fields[1..]);
      assert fields == [fields[0]] + fields[1..];
    }
  }

  /**
   * A written line reads back as the entry it came from, provided the docid,
   * the rendered score and the run id are single whitespace-free words.
   */
  lemma RunLineRoundTrip(e: RunEntry, render: real -> string)
    requires IsWord(ValueText(e.docid)) && IsWord(render(e.score)) && IsWord(e.runId)
    ensures ParseRunLine(EntryLine(e, render)) == Some((e.qid, ValueText(e.docid), e.rank, render(e.score), e.runId))
  {
    var f := EntryFields(e, render);
    assert IsWord("Q0");
    SplitJoinSpace(f);
    ParseIntToString(e.qid);
    ParseIntToString(e.rank);
  }
}
