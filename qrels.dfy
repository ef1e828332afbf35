/**
 * The relevance-judgment parser (`parser_qrels`): each line of the form
 * `query_id doc_id x y` files `doc_id` under `query_id`, in line order.
 */
module Qrels {
  import opened Outcomes
  import opened Dicts
  import Text

  /** query id -> the judged document ids, in line order. */
  type QrelsDict = Dict<string, seq<string>>

  /**
   * The fields a line contributes: none when it is blank after stripping or
   * does not split into exactly four whitespace-separated fields, otherwise
   * its first two fields (the last two are ignored).
   */
  function Judgment(line: string): Option<(string, string)> {
    var stripped := Text.Strip(line);
    if stripped == [] then None
    else
      var parts := Text.Words(stripped);
      if |parts| != 4 then None else Some((parts[0], parts[1]))
  }

  /** What each line contributes, line by line. */
  function Judgments(lines: seq<string>): (js: seq<Option<(string, string)>>)
    ensures |js| == |lines| && forall i :: 0 <= i < |lines| ==> js[i] == Judgment(lines[i])
  {
    seq(|lines|, i requires 0 <= i < |lines| => Judgment(lines[i]))
  }

  /** The dictionary the loop builds from the contributions `js`. */
  function Collect(js: seq<Option<(string, string)>>): QrelsDict {
    if js == [] then []
    else
      var qrels := Collect(js[..|js| - 1]);
      match js[|js| - 1]
      case None => qrels
      case Some(j) => Put(qrels, j.0, GetOr(qrels, j.0, []) + [j.1])
  }

  /** The dictionary the loop has built after `lines`. */
  function QrelsOf(lines: seq<string>): QrelsDict {
    Collect(Judgments(lines))
  }

  /**
   * `if query_id not in qrels_dict: qrels_dict[query_id] = []` followed by
   * `qrels_dict[query_id].append(doc_id)`.
   */
  method AppendJudgment(qrels: QrelsDict, queryId: string, docId: string) returns (r: QrelsDict)
    ensures r == Put(qrels, queryId, GetOr(qrels, queryId, []) + [docId])
  {
    r := qrels;
    GetSomeIffKey(r, queryId);
    if queryId !in Keys(r) {
      assert GetOr(qrels, queryId, []) == [];
      PutPut(r, queryId, [], [docId]);
      GetPut(r, queryId, [], queryId);
      r := Put(r, queryId, []);
      assert GetOr(r, queryId, []) + [docId] == [docId];
    } else {
      assert r == qrels;
    }
    r := Put(r, queryId, GetOr(r, queryId, []) + [docId]);
  }

  /** The loop of `parser_qrels`, over the lines of the file. */
  method ParseQrels(lines: seq<string>) returns (qrels: QrelsDict)
    ensures qrels == QrelsOf(lines)
  {
    ghost var js := Judgments(lines);
    qrels := [];
    for i := 0 to |lines|
      invariant qrels == Collect(js[..i])
    {
      ghost var prefix := js[..i + 1];
      assert prefix[..|prefix| - 1] == js[..i] && prefix[|prefix| - 1] == Judgment(lines[i]);
      var line := Text.Strip(lines[i]);
      if line == [] {
        assert Judgment(lines[i]) == None;
        continue;
      }
      var parts := Text.Words(line);
      if |parts| != 4 {
        assert Judgment(lines[i]) == None;
        continue;
      }
      var queryId, docId := parts[0], parts[1];
      assert Judgment(lines[i]) == Some((queryId, docId));
      qrels := AppendJudgment(qrels, queryId, docId);
    }
    assert js[..|lines|] == js;
  }

  /** The document ids the contributions `js` file under query `q`, in order. */
  function DocsFor(js: seq<Option<(string, string)>>, q: string): seq<string> {
    if js == [] then []
    else
      var docs := DocsFor(js[..|js| - 1], q);
      match js[|js| - 1]
      case Some(j) => if j.0 == q then docs + [j.1] else docs
      case None => docs
  }

  /** The reference: the document ids of the valid lines for query `q`, in line order, duplicates kept. */
  function JudgedDocs(lines: seq<string>, q: string): seq<string> {
    DocsFor(Judgments(lines), q)
  }

  /** The number of contributions that are judgments. */
  function CountJudgments(js: seq<Option<(string, string)>>): nat {
    if js == [] then 0
    else CountJudgments(js[..|js| - 1]) + if js[|js| - 1].Some? then 1 else 0
  }

  /** The number of valid lines. */
  function ValidLines(lines: seq<string>): nat {
    CountJudgments(Judgments(lines))
  }

  lemma {:induction false} CollectDocs(js: seq<Option<(string, string)>>, q: string)
    ensures Get(Collect(js), q) == if DocsFor(js, q) == [] then None else Some(DocsFor(js, q))
  {
    if js != [] {
      var init := js[..|js| - 1];
      CollectDocs(init, q);
      match js[|js| - 1]
      case None =>
      case Some(j) =>
        var qrels := Collect(init);
        GetPut(qrels, j.0, GetOr(qrels, j.0, []) + [j.1], q);
        if j.0 == q {
          CollectDocs(init, j.0);
        }
    }
  }

  /**
   * A query is a key exactly when some valid line names it, and its list is
   * the document ids of those lines in line order: no key has an empty list.
   */
  lemma QrelsOfJudgments(lines: seq<string>, q: string)
    ensures Get(QrelsOf(lines), q) == if JudgedDocs(lines, q) == [] then None else Some(JudgedDocs(lines, q))
  {
    CollectDocs(Judgments(lines), q);
  }

  lemma {:induction false} CollectDistinct(js: seq<Option<(string, string)>>)
    ensures DistinctKeys(Collect(js))
  {
    if js != [] {
      var init := js[..|js| - 1];
      CollectDistinct(init);
      match js[|js| - 1]
      case None =>
      case Some(j) =>
        var qrels := Collect(init);
        PutDistinct(qrels, j.0, GetOr(qrels, j.0, []) + [j.1]);
    }
  }

  /** Each query id is a key at most once. */
  lemma QrelsOfDistinct(lines: seq<string>)
    ensures DistinctKeys(QrelsOf(lines))
  {
    CollectDistinct(Judgments(lines));
  }

  /** The total length of all the lists. */
  function TotalLength(qrels: QrelsDict): nat {
    if qrels == [] then 0 else |qrels[0].1| + TotalLength(qrels[1..])
  }

  lemma TotalLengthPut(qrels: QrelsDict, k: string, v: seq<string>)
    ensures TotalLength(Put(qrels, k, v)) + |GetOr(qrels, k, [])| == TotalLength(qrels) + |v|
  {
  }

  lemma {:induction false} CollectTotal(js: seq<Option<(string, string)>>)
    ensures TotalLength(Collect(js)) == CountJudgments(js)
  {
    if js != [] {
      var init := js[..|js| - 1];
      CollectTotal(init);
      match js[|js| - 1]
      case None =>
      case Some(j) =>
        var qrels := Collect(init);
        TotalLengthPut(qrels, j.0, GetOr(qrels, j.0, []) + [j.1]);
    }
  }

  /** Every valid line adds exactly one document id. */
  lemma QrelsOfTotal(lines: seq<string>)
    ensures TotalLength(QrelsOf(lines)) == ValidLines(lines)
  {
    CollectTotal(Judgments(lines));
  }
}
