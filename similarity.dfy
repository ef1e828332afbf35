/**
 * `calculate_similarity` of the retrieval engine: the sparse dot product of
 * a query vector with every document, accumulated term at a time over the
 * inverted file, then ordered by decreasing score.
 */
module Similarity {
  import opened Outcomes
  import opened Dicts

  /** The query vector: term -> query weight. */
  type QueryVector = Dict<string, real>

  /** The document vectors, i.e. an inverted file: term -> (document -> weight). */
  type DocumentVectors = Dict<string, Dict<string, real>>

  /** The scores: document -> similarity. */
  type Scores = Dict<string, real>

  /** Every posting list names each document once, as a Python dict does. */
  ghost predicate PostingsDistinct(dv: DocumentVectors) {
    forall i :: 0 <= i < |dv| ==> DistinctKeys(dv[i].1)
  }

  /** What one posting of weight `w` adds for a query term of weight `qw`. */
  function Contribution(qw: real, w: real): real {
    qw * w
  }

  /**
   * The inner loop: for each posting `(doc, w)` of one query term of weight
   * `qw`, `query_docs_similarities.setdefault(doc, 0)` and then `+= qw * w`.
   */
  function AddPostings(acc: Scores, qw: real, postings: Dict<string, real>): Scores {
    if postings == [] then acc
    else
      var r := AddPostings(acc, qw, postings[..|postings| - 1]);
      var last := postings[|postings| - 1];
      Put(r, last.0, GetOr(r, last.0, 0.0) + Contribution(qw, last.1))
  }

  /** The outer loop over the query terms; a term missing from the document vectors is skipped. */
  function Accumulate(qv: QueryVector, dv: DocumentVectors): Scores {
    if qv == [] then []
    else
      var r := Accumulate(qv[..|qv| - 1], dv);
      var last := qv[|qv| - 1];
      match Get(dv, last.0)
      case Some(postings) => AddPostings(r, last.1, postings)
      case None => r
  }

  /**
   * `sorted(items, key=lambda item: item[1], reverse=True)` builds its result
   * by a stable sort; here each item goes after every item already placed
   * whose score is at least its own.
   */
  function InsertByScore(x: (string, real), sorted: Scores): (r: Scores)
    ensures |r| == |sorted| + 1
  {
    if sorted == [] then [x]
    else if sorted[0].1 < x.1 then [x] + sorted
    else [sorted[0]] + InsertByScore(x, sorted[1..])
  }

  function SortByScore(items: Scores): (r: Scores)
    ensures |r| == |items|
  {
    if items == [] then []
    else InsertByScore(items[|items| - 1], SortByScore(items[..|items| - 1]))
  }

  /** The scores, in the order of the returned dict: never increasing. */
  ghost predicate NonIncreasing(s: Scores) {
    forall i, j :: 0 <= i < j < |s| ==> s[i].1 >= s[j].1
  }

  /** What `calculate_similarity` returns. */
  function SimilarityOf(qv: QueryVector, dv: DocumentVectors): Scores {
    var acc := Accumulate(qv, dv);
    if |acc| > 0 then SortByScore(acc) else acc
  }

  /** The inner loop of `calculate_similarity`, over the postings of one query term. */
  method AddQueryTerm(acc: Scores, qw: real, postings: Dict<string, real>) returns (sims: Scores)
    ensures sims == AddPostings(acc, qw, postings)
  {
    sims := acc;
    for j := 0 to |postings|
      invariant sims == AddPostings(acc, qw, postings[..j])
    {
      var (doc, w) := postings[j];
      ghost var done := postings[..j + 1];
      assert done[..|done| - 1] == postings[..j] && done[|done| - 1] == (doc, w);
      sims := Put(sims, doc, GetOr(sims, doc, 0.0) + Contribution(qw, w));
    }
    assert postings[..|postings|] == postings;
  }

  /** `calculate_similarity`. */
  method CalculateSimilarity(qv: QueryVector, dv: DocumentVectors) returns (sims: Scores)
    ensures sims == SimilarityOf(qv, dv)
  {
    sims := [];
    for i := 0 to |qv|
      invariant sims == Accumulate(qv[..i], dv)
    {
      var (queryKey, qw) := qv[i];
      ghost var prefix := qv[..i + 1];
      assert prefix[..|prefix| - 1] == qv[..i] && prefix[|prefix| - 1] == (queryKey, qw);
      GetSomeIffKey(dv, queryKey);
      if queryKey in Keys(dv) {
        sims := AddQueryTerm(sims, qw, Get(dv, queryKey).value);
      }
    }
    assert qv[..|qv|] == qv;
    if |sims| > 0 {
      sims := SortByScore(sims);
    }
  }

  // ---------------------------------------------------------------------------
  // The reference: the dot product, document by document.

  /** The weight of document `d` in the postings of `queryKey`, if both exist. */
  function DocumentWeight(queryKey: string, dv: DocumentVectors, d: string): Option<real> {
    match Get(dv, queryKey)
    case Some(postings) => Get(postings, d)
    case None => None
  }

  /** Some query term's postings hold `d`. */
  function Touches(qv: QueryVector, dv: DocumentVectors, d: string): bool {
    if qv == [] then false
    else Touches(qv[..|qv| - 1], dv, d) || DocumentWeight(qv[|qv| - 1].0, dv, d).Some?
  }

  /** The dot product: the sum of `q[t] * index[t][d]` over the query terms `t` whose postings hold `d`. */
  function Score(qv: QueryVector, dv: DocumentVectors, d: string): real {
    if qv == [] then 0.0
    else
      var last := qv[|qv| - 1];
      Score(qv[..|qv| - 1], dv, d) + match DocumentWeight(last.0, dv, d)
                                     case Some(w) => Contribution(last.1, w)
                                     case None => 0.0
  }

  /** A document no query term reaches scores 0. */
  lemma {:induction false} ScoreUntouched(qv: QueryVector, dv: DocumentVectors, d: string)
    requires !Touches(qv, dv, d)
    ensures Score(qv, dv, d) == 0.0
  {
    if qv != [] {
      ScoreUntouched(qv[..|qv| - 1], dv, d);
    }
  }

  /** The score of `d` after one term's postings: its posting's contribution added to what `acc` held. */
  function ScoreAfterPostings(acc: Scores, qw: real, postings: Dict<string, real>, d: string): Option<real> {
    match Get(postings, d)
    case Some(w) => Some(GetOr(acc, d, 0.0) + Contribution(qw, w))
    case None => Get(acc, d)
  }

  lemma {:induction false} AddPostingsScores(acc: Scores, qw: real, postings: Dict<string, real>, d: string)
    requires DistinctKeys(postings)
    ensures Get(AddPostings(acc, qw, postings), d) == ScoreAfterPostings(acc, qw, postings, d)
  {
    if postings != [] {
      var init := postings[..|postings| - 1];
      var doc, w := postings[|postings| - 1].0, postings[|postings| - 1].1;
      assert postings == init + [(doc, w)];
      DistinctKeysAppend(init, doc, w);
      AddPostingsScores(acc, qw, init, d);
      AddPostingsScores(acc, qw, init, doc);
      GetSomeIffKey(init, doc);
      var r := AddPostings(acc, qw, init);
      assert AddPostings(acc, qw, postings) == Put(r, doc, GetOr(r, doc, 0.0) + Contribution(qw, w));
      AddPostingStep(acc, r, qw, init, doc, w, d);
    }
  }

  /** One posting more keeps the scores `AddPostingsScores` describes. */
  lemma AddPostingStep(acc: Scores, r: Scores, qw: real, init: Dict<string, real>, doc: string, w: real, d: string)
    requires Get(init, doc) == None && Get(r, doc) == Get(acc, doc)
    requires Get(r, d) == ScoreAfterPostings(acc, qw, init, d)
    ensures Get(Put(r, doc, GetOr(r, doc, 0.0) + Contribution(qw, w)), d) == ScoreAfterPostings(acc, qw, init + [(doc, w)], d)
  {
    GetPut(r, doc, GetOr(r, doc, 0.0) + Contribution(qw, w), d);
    GetAppend(init, doc, w, d);
  }

  /**
   * Term-at-a-time accumulation computes the dot product: a document gets a
   * score exactly when some query term's postings hold it, and the score is
   * the dot product.
   */
  lemma {:induction false} AccumulateScores(qv: QueryVector, dv: DocumentVectors, d: string)
    requires PostingsDistinct(dv)
    ensures Get(Accumulate(qv, dv), d) == if Touches(qv, dv, d) then Some(Score(qv, dv, d)) else None
  {
    if qv != [] {
      var init := qv[..|qv| - 1];
      var (queryKey, qw) := qv[|qv| - 1];
      AccumulateScores(init, dv, d);
      if !Touches(init, dv, d) {
        ScoreUntouched(init, dv, d);
      }
      match Get(dv, queryKey)
      case Some(postings) =>
        GetSomeIsEntry(dv, queryKey);
        AddPostingsScores(Accumulate(init, dv), qw, postings, d);
      case None =>
    }
  }

  lemma {:induction false} AddPostingsDistinct(acc: Scores, qw: real, postings: Dict<string, real>)
    requires DistinctKeys(acc)
    ensures DistinctKeys(AddPostings(acc, qw, postings))
  {
    if postings != [] {
      AddPostingsDistinct(acc, qw, postings[..|postings| - 1]);
      var r := AddPostings(acc, qw, postings[..|postings| - 1]);
      var (doc, w) := postings[|postings| - 1];
      PutDistinct(r, doc, GetOr(r, doc, 0.0) + Contribution(qw, w));
    }
  }

  lemma {:induction false} AccumulateDistinct(qv: QueryVector, dv: DocumentVectors)
    ensures DistinctKeys(Accumulate(qv, dv))
  {
    if qv != [] {
      AccumulateDistinct(qv[..|qv| - 1], dv);
      var (queryKey, qw) := qv[|qv| - 1];
      match Get(dv, queryKey)
      case Some(postings) =>
        AddPostingsDistinct(Accumulate(qv[..|qv| - 1], dv), qw, postings);
      case None =>
    }
  }

  // ---------------------------------------------------------------------------
  // The ordering step keeps every (document, score) pair and sorts them.

  lemma {:induction false} InsertByScoreMultiset(x: (string, real), sorted: Scores)
    ensures multiset(InsertByScore(x, sorted)) == multiset(sorted) + multiset{x}
  {
    if sorted != [] && sorted[0].1 >= x.1 {
      InsertByScoreMultiset(x, sorted[1..]);
      assert sorted == [sorted[0]] + sorted[1..];
    }
  }

  lemma {:induction false} InsertByScoreOrdered(x: (string, real), sorted: Scores)
    requires NonIncreasing(sorted)
    ensures NonIncreasing(InsertByScore(x, sorted))
  {
    if sorted != [] && sorted[0].1 >= x.1 {
      var rest := InsertByScore(x, sorted[1..]);
      InsertByScoreOrdered(x, sorted[1..]);
      InsertByScoreMultiset(x, sorted[1..]);
      forall k | 0 <= k < |rest| ensures sorted[0].1 >= rest[k].1 {
        assert rest[k] in multiset(rest);
        if rest[k] != x {
          assert rest[k] in multiset(sorted[1..]);
          var l :| 0 <= l < |sorted[1..]| && sorted[1..][l] == rest[k];
          assert sorted[l + 1] == rest[k];
        }
      }
    }
  }

  /** The sorted items are the items, in non-increasing order of score. */
  lemma {:induction false} SortByScoreEntries(items: Scores)
    ensures multiset(SortByScore(items)) == multiset(items)
    ensures NonIncreasing(SortByScore(items))
  {
    if items != [] {
      var init := items[..|items| - 1];
      SortByScoreEntries(init);
      InsertByScoreMultiset(items[|items| - 1], SortByScore(init));
      InsertByScoreOrdered(items[|items| - 1], SortByScore(init));
      assert items == init + [items[|items| - 1]];
    }
  }

  lemma {:induction false} InsertByScoreGet(x: (string, real), sorted: Scores, k: string)
    requires DistinctKeys(sorted) && x.0 !in Keys(sorted)
    ensures DistinctKeys(InsertByScore(x, sorted))
    ensures Get(InsertByScore(x, sorted), k) == if k == x.0 then Some(x.1) else Get(sorted, k)
    ensures k in Keys(InsertByScore(x, sorted)) <==> k == x.0 || k in Keys(sorted)
  {
    if sorted != [] && sorted[0].1 >= x.1 {
      assert Keys(sorted) == [sorted[0].0] + Keys(sorted[1..]);
      InsertByScoreGet(x, sorted[1..], k);
      var rest := InsertByScore(x, sorted[1..]);
      forall j | 0 <= j < |rest| ensures rest[j].0 != sorted[0].0 {
        InsertByScoreGet(x, sorted[1..], rest[j].0);
      }
    } else if sorted != [] {
      forall j | 0 <= j < |sorted| ensures sorted[j].0 != x.0 {
        assert Keys(sorted)[j] == sorted[j].0;
      }
    }
  }

  /** Sorting a dict's items keeps its contents: each key once, with its value. */
  lemma {:induction false} SortByScoreGet(items: Scores, k: string)
    requires DistinctKeys(items)
    ensures DistinctKeys(SortByScore(items))
    ensures Get(SortByScore(items), k) == Get(items, k)
    ensures k in Keys(SortByScore(items)) <==> k in Keys(items)
  {
    if items != [] {
      var init := items[..|items| - 1];
      var x := items[|items| - 1];
      assert items == init + [x];
      DistinctKeysAppend(init, x.0, x.1);
      SortByScoreGet(init, k);
      SortByScoreGet(init, x.0);
      InsertByScoreGet(x, SortByScore(init), k);
      GetAppend(init, x.0, x.1, k);
      GetSomeIffKey(init, k);
      GetSomeIffKey(init, x.0);
      KeysAppend(init, x.0, x.1);
    }
  }

  /**
   * `calculate_similarity` scores exactly the documents some query term's
   * postings hold, each once, with the dot product of the query and the
   * document; query terms absent from the index add nothing; and the
   * scores come in non-increasing order.
   */
  lemma SimilarityScores(qv: QueryVector, dv: DocumentVectors, d: string)
    requires PostingsDistinct(dv)
    ensures Get(SimilarityOf(qv, dv), d) == if Touches(qv, dv, d) then Some(Score(qv, dv, d)) else None
    ensures DistinctKeys(SimilarityOf(qv, dv))
    ensures NonIncreasing(SimilarityOf(qv, dv))
  {
    var acc := Accumulate(qv, dv);
    AccumulateScores(qv, dv, d);
    AccumulateDistinct(qv, dv);
    SortByScoreGet(acc, d);
    SortByScoreEntries(acc);
  }
}
