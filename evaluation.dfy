/**
 * The evaluation metrics: precision at k, average precision and mean
 * average precision, with the exceptions the code raises (an index past the
 * retrieved list, a division by zero, a query without relevance judgments)
 * as error results.
 */
module Evaluation {
  import opened Outcomes
  import opened Dicts

  /** The exceptions the metrics raise. */
  datatype EvalError =
    | IndexOutOfRange          // IndexError: `retrieved_docs[index]` past the end
    | DivisionByZero           // ZeroDivisionError
    | MissingJudgment(queryId: string)  // "There is a query that doesn't have any relevant document"

  /** The number of items of `s` that occur in `relevant` (`x in relevant_docs` is list membership). */
  function Hits(s: seq<string>, relevant: seq<string>): (n: nat)
    ensures n <= |s|
  {
    if s == [] then 0
    else Hits(s[..|s| - 1], relevant) + if s[|s| - 1] in relevant then 1 else 0
  }

  /** Precision at a valid cut-off: the fraction of the first `k` retrieved items that are relevant. */
  function Precision(retrieved: seq<string>, relevant: seq<string>, k: nat): real
    requires 1 <= k <= |retrieved|
  {
    Hits(retrieved[..k], relevant) as real / k as real
  }

  /**
   * `calculate_precision_at_k`: `range(0, k)` reads `retrieved_docs[0..k-1]`,
   * so a `k` past the end raises `IndexError`; `count / k` raises
   * `ZeroDivisionError` for `k == 0`; a negative `k` reads nothing and gives 0.
   */
  function PrecisionAtK(retrieved: seq<string>, relevant: seq<string>, k: int): Result<real, EvalError> {
    if k > |retrieved| then Err(IndexOutOfRange)
    else if k == 0 then Err(DivisionByZero)
    else if k < 0 then Ok(0.0)
    else Ok(Precision(retrieved, relevant, k))
  }

  /** `calculate_precision_at_k`. */
  method CalculatePrecisionAtK(retrieved: seq<string>, relevant: seq<string>, k: int)
    returns (r: Result<real, EvalError>)
    ensures r == PrecisionAtK(retrieved, relevant, k)
  {
    var count := 0;
    var index := 0;
    while index < k
      invariant 0 <= index <= |retrieved|
      invariant k >= 0 ==> index <= k
      invariant k < 0 ==> index == 0
      invariant count == Hits(retrieved[..index], relevant)
    {
      if index >= |retrieved| {
        return Err(IndexOutOfRange);
      }
      assert retrieved[..index + 1][..index] == retrieved[..index];
      if retrieved[index] in relevant {
        count := count + 1;
      }
      index := index + 1;
    }
    if k == 0 {
      return Err(DivisionByZero);
    }
    return Ok(count as real / k as real);
  }

  /** No hits exactly when no item is relevant. */
  lemma {:induction false} HitsZero(s: seq<string>, relevant: seq<string>)
    ensures Hits(s, relevant) == 0 <==> forall i :: 0 <= i < |s| ==> s[i] !in relevant
  {
    if s != [] {
      HitsZero(s[..|s| - 1], relevant);
      assert forall i :: 0 <= i < |s| - 1 ==> s[..|s| - 1][i] == s[i];
    }
  }

  /**
   * Precision at k is defined exactly for `1 <= k <= |retrieved|` and for a
   * negative `k`, and then lies in [0, 1].
   */
  lemma PrecisionAtKBounds(retrieved: seq<string>, relevant: seq<string>, k: int)
    ensures PrecisionAtK(retrieved, relevant, k).Ok? <==> k < 0 || 1 <= k <= |retrieved|
    ensures PrecisionAtK(retrieved, relevant, k).Ok? ==>
      0.0 <= PrecisionAtK(retrieved, relevant, k).value <= 1.0
  {
    if 1 <= k <= |retrieved| {
      FractionAtMostOne(Hits(retrieved[..k], relevant), k);
    }
  }

  lemma FractionAtMostOne(a: nat, b: nat)
    requires 0 < b && a <= b
    ensures 0.0 <= a as real / b as real <= 1.0
  {
    assert a as real / b as real * b as real == a as real;
  }

  /** The sum of the precisions at the first `n` positions that hold a relevant item. */
  function SumPrecisions(retrieved: seq<string>, relevant: seq<string>, n: nat): real
    requires n <= |retrieved|
  {
    if n == 0 then 0.0
    else SumPrecisions(retrieved, relevant, n - 1)
         + if retrieved[n - 1] in relevant then Precision(retrieved, relevant, n) else 0.0
  }

  /**
   * `calculate_average_precision`: the sum of the precisions at the relevant
   * positions, divided by `len(relevant_docs)` (duplicates counted), which
   * raises `ZeroDivisionError` when there are no relevant documents.
   */
  function AveragePrecision(retrieved: seq<string>, relevant: seq<string>): Result<real, EvalError> {
    if |relevant| == 0 then Err(DivisionByZero)
    else Ok(SumPrecisions(retrieved, relevant, |retrieved|) / |relevant| as real)
  }

  /** `calculate_average_precision`, calling `calculate_precision_at_k` at each relevant position. */
  method CalculateAveragePrecision(retrieved: seq<string>, relevant: seq<string>)
    returns (r: Result<real, EvalError>)
    ensures r == AveragePrecision(retrieved, relevant)
  {
    var sumPrecisions := 0.0;
    for idx := 0 to |retrieved|
      invariant sumPrecisions == SumPrecisions(retrieved, relevant, idx)
    {
      if retrieved[idx] in relevant {
        var p := CalculatePrecisionAtK(retrieved, relevant, idx + 1);
        sumPrecisions := sumPrecisions + p.value;
      }
    }
    if |relevant| == 0 {
      return Err(DivisionByZero);
    }
    return Ok(sumPrecisions / |relevant| as real);
  }

  /** Each summed precision is at most 1, so the sum is at most the number of hits; and it is never negative. */
  lemma {:induction false} SumPrecisionsBounds(retrieved: seq<string>, relevant: seq<string>, n: nat)
    requires n <= |retrieved|
    ensures 0.0 <= SumPrecisions(retrieved, relevant, n) <= Hits(retrieved[..n], relevant) as real
  {
    if n > 0 {
      SumPrecisionsBounds(retrieved, relevant, n - 1);
      assert retrieved[..n][..n - 1] == retrieved[..n - 1];
      if retrieved[n - 1] in relevant {
        FractionAtMostOne(Hits(retrieved[..n], relevant), n);
      }
    }
  }

  /** The sum is 0 exactly when none of the first `n` items is relevant. */
  lemma {:induction false} SumPrecisionsZero(retrieved: seq<string>, relevant: seq<string>, n: nat)
    requires n <= |retrieved|
    ensures SumPrecisions(retrieved, relevant, n) == 0.0 <==> Hits(retrieved[..n], relevant) == 0
  {
    if n > 0 {
      SumPrecisionsZero(retrieved, relevant, n - 1);
      SumPrecisionsBounds(retrieved, relevant, n - 1);
      assert retrieved[..n][..n - 1] == retrieved[..n - 1];
      if retrieved[n - 1] in relevant {
        assert Hits(retrieved[..n], relevant) >= 1;
        assert Precision(retrieved, relevant, n) > 0.0;
      }
    }
  }

  /** The items of a duplicate-free list that are relevant are at most as many as the relevant list. */
  lemma {:induction false} HitsOfDistinct(s: seq<string>, relevant: seq<string>)
    requires forall i, j :: 0 <= i < j < |s| ==> s[i] != s[j]
    ensures Hits(s, relevant) == |set x | x in s && x in relevant|
  {
    if s != [] {
      var init := s[..|s| - 1];
      var x := s[|s| - 1];
      HitsOfDistinct(init, relevant);
      var before := set y | y in init && y in relevant;
      var after := set y | y in s && y in relevant;
      assert x !in init;
      if x in relevant {
        assert after == before + {x};
      } else {
        assert after == before;
      }
    }
  }

  lemma {:induction false} DistinctElementsAtMostLength(s: seq<string>)
    ensures |set x | x in s| <= |s|
  {
    if s != [] {
      var init := s[..|s| - 1];
      DistinctElementsAtMostLength(init);
      assert (set x | x in s) == (set x | x in init) + {s[|s| - 1]};
    }
  }

  /**
   * Average precision (defined whenever there are relevant documents) is
   * never negative, and is 0 exactly when no retrieved item is relevant.
   */
  lemma AveragePrecisionNonNegative(retrieved: seq<string>, relevant: seq<string>)
    ensures AveragePrecision(retrieved, relevant).Ok? <==> |relevant| > 0
    ensures AveragePrecision(retrieved, relevant).Ok? ==>
      && 0.0 <= AveragePrecision(retrieved, relevant).value
      && (AveragePrecision(retrieved, relevant).value == 0.0
          <==> forall i :: 0 <= i < |retrieved| ==> retrieved[i] !in relevant)
  {
    if |relevant| > 0 {
      var n := |retrieved|;
      assert retrieved[..n] == retrieved;
      SumPrecisionsBounds(retrieved, relevant, n);
      SumPrecisionsZero(retrieved, relevant, n);
      HitsZero(retrieved, relevant);
      var total := SumPrecisions(retrieved, relevant, n);
      assert total / |relevant| as real * |relevant| as real == total;
    }
  }

  /** A duplicate-free retrieved list hits at most as many items as the relevant list holds. */
  lemma HitsAtMostRelevant(retrieved: seq<string>, relevant: seq<string>)
    requires forall i, j :: 0 <= i < j < |retrieved| ==> retrieved[i] != retrieved[j]
    ensures Hits(retrieved, relevant) <= |relevant|
  {
    HitsOfDistinct(retrieved, relevant);
    DistinctElementsAtMostLength(relevant);
    var hit := set x | x in retrieved && x in relevant;
    var all := set x | x in relevant;
    assert all == hit + (all - hit);
    assert hit * (all - hit) == {};
  }

  /** Average precision is at most 1 when the retrieved list has no duplicates. */
  lemma AveragePrecisionAtMostOne(retrieved: seq<string>, relevant: seq<string>)
    requires |relevant| > 0
    requires forall i, j :: 0 <= i < j < |retrieved| ==> retrieved[i] != retrieved[j]
    ensures AveragePrecision(retrieved, relevant).value <= 1.0
  {
    var n := |retrieved|;
    assert retrieved[..n] == retrieved;
    SumPrecisionsBounds(retrieved, relevant, n);
    HitsAtMostRelevant(retrieved, relevant);
    var total := SumPrecisions(retrieved, relevant, n);
    assert total <= |relevant| as real;
    QuotientAtMostOne(total, |relevant| as real);
  }

  lemma QuotientAtMostOne(a: real, b: real)
    requires 0.0 < b && a <= b
    ensures a / b <= 1.0
  {
    assert a / b * b == a;
  }

  /** With a repeated relevant item, average precision exceeds 1: ["1", "1"] against ["1"] gives 2. */
  lemma AveragePrecisionWithDuplicates()
    ensures AveragePrecision(["1", "1"], ["1"]) == Ok(2.0)
  {
    var r := ["1", "1"];
    assert r[..1] == ["1"] && r[..2] == r;
    assert Hits(["1"], ["1"]) == 1;
    assert Hits(r, ["1"]) == 2;
  }

  /** The retrieved lists per query, and the relevant lists per query. */
  type Rankings = Dict<string, seq<string>>

  /**
   * The loop of `calculate_map` over the first queries: the sum of their
   * average precisions, or the first exception, in iteration order.
   */
  function SumAveragePrecisions(allRetrieved: Rankings, allRelevant: Rankings): Result<real, EvalError> {
    if allRetrieved == [] then Ok(0.0)
    else
      match SumAveragePrecisions(allRetrieved[..|allRetrieved| - 1], allRelevant)
      case Err(e) => Err(e)
      case Ok(sum) =>
        var (retrievedKey, retrievedDocs) := allRetrieved[|allRetrieved| - 1];
        match Get(allRelevant, retrievedKey)
        case None => Err(MissingJudgment(retrievedKey))
        case Some(relevantDocs) =>
          match AveragePrecision(retrievedDocs, relevantDocs)
          case Err(e) => Err(e)
          case Ok(ap) => Ok(sum + ap)
  }

  /** `calculate_map`: the mean of the average precisions over the retrieved queries. */
  function MeanAveragePrecision(allRetrieved: Rankings, allRelevant: Rankings): Result<real, EvalError> {
    match SumAveragePrecisions(allRetrieved, allRelevant)
    case Err(e) => Err(e)
    case Ok(sum) => if |allRetrieved| == 0 then Err(DivisionByZero) else Ok(sum / |allRetrieved| as real)
  }

  /** `calculate_map`. */
  method CalculateMap(allRetrieved: Rankings, allRelevant: Rankings) returns (r: Result<real, EvalError>)
    ensures r == MeanAveragePrecision(allRetrieved, allRelevant)
  {
    var sumAveragePrecisions := 0.0;
    for i := 0 to |allRetrieved|
      invariant SumAveragePrecisions(allRetrieved[..i], allRelevant) == Ok(sumAveragePrecisions)
    {
      var (retrievedKey, retrievedDocs) := allRetrieved[i];
      ghost var prefix := allRetrieved[..i + 1];
      assert prefix[..|prefix| - 1] == allRetrieved[..i] && prefix[|prefix| - 1] == (retrievedKey, retrievedDocs);
      GetSomeIffKey(allRelevant, retrievedKey);
      if retrievedKey !in Keys(allRelevant) {
        r := Err(MissingJudgment(retrievedKey));
        SumAveragePrecisionsErr(allRetrieved, allRelevant, i + 1);
        return;
      }
      var ap := CalculateAveragePrecision(retrievedDocs, Get(allRelevant, retrievedKey).value);
      if ap.Err? {
        r := Err(ap.error);
        SumAveragePrecisionsErr(allRetrieved, allRelevant, i + 1);
        return;
      }
      sumAveragePrecisions := sumAveragePrecisions + ap.value;
    }
    assert allRetrieved[..|allRetrieved|] == allRetrieved;
    if |allRetrieved| == 0 {
      return Err(DivisionByZero);
    }
    return Ok(sumAveragePrecisions / |allRetrieved| as real);
  }

  /** Once the loop has raised, later queries change nothing. */
  lemma {:induction false} SumAveragePrecisionsErr(allRetrieved: Rankings, allRelevant: Rankings, n: nat)
    requires n <= |allRetrieved| && SumAveragePrecisions(allRetrieved[..n], allRelevant).Err?
    ensures SumAveragePrecisions(allRetrieved, allRelevant) == SumAveragePrecisions(allRetrieved[..n], allRelevant)
  {
    if n < |allRetrieved| {
      var init := allRetrieved[..|allRetrieved| - 1];
      assert init[..n] == allRetrieved[..n];
      SumAveragePrecisionsErr(init, allRelevant, n);
    } else {
      assert allRetrieved[..n] == allRetrieved;
    }
  }

  /** The judgments of query `q` exist and are non-empty. */
  predicate Judged(allRelevant: Rankings, q: string) {
    match Get(allRelevant, q)
    case Some(relevantDocs) => |relevantDocs| > 0
    case None => false
  }

  lemma {:induction false} SumAveragePrecisionsOk(allRetrieved: Rankings, allRelevant: Rankings)
    ensures SumAveragePrecisions(allRetrieved, allRelevant).Ok?
        <==> forall i :: 0 <= i < |allRetrieved| ==> Judged(allRelevant, allRetrieved[i].0)
    ensures SumAveragePrecisions(allRetrieved, allRelevant).Ok? ==>
      0.0 <= SumAveragePrecisions(allRetrieved, allRelevant).value
  {
    if allRetrieved != [] {
      var init := allRetrieved[..|allRetrieved| - 1];
      var (key, docs) := allRetrieved[|allRetrieved| - 1];
      SumAveragePrecisionsOk(init, allRelevant);
      assert forall i :: 0 <= i < |init| ==> init[i] == allRetrieved[i];
      if Judged(allRelevant, key) {
        AveragePrecisionNonNegative(docs, Get(allRelevant, key).value);
      }
    }
  }

  /**
   * `calculate_map` succeeds exactly when there is at least one query and
   * every retrieved query has a non-empty judgment list, and then is at
   * least 0; a query without judgments is reported by its id.
   */
  lemma MeanAveragePrecisionOk(allRetrieved: Rankings, allRelevant: Rankings)
    ensures MeanAveragePrecision(allRetrieved, allRelevant).Ok?
        <==> |allRetrieved| > 0 && forall i :: 0 <= i < |allRetrieved| ==> Judged(allRelevant, allRetrieved[i].0)
    ensures MeanAveragePrecision(allRetrieved, allRelevant).Ok? ==>
      0.0 <= MeanAveragePrecision(allRetrieved, allRelevant).value
  {
    SumAveragePrecisionsOk(allRetrieved, allRelevant);
  }

  /** A reported missing judgment names a retrieved query that has no judgment list. */
  lemma {:induction false} MissingJudgmentIsRetrievedQuery(allRetrieved: Rankings, allRelevant: Rankings, q: string)
    requires SumAveragePrecisions(allRetrieved, allRelevant) == Err(MissingJudgment(q))
    ensures q in Keys(allRetrieved) && q !in Keys(allRelevant)
  {
    var init := allRetrieved[..|allRetrieved| - 1];
    var (key, docs) := allRetrieved[|allRetrieved| - 1];
    assert allRetrieved == init + [(key, docs)];
    KeysAppend(init, key, docs);
    if SumAveragePrecisions(init, allRelevant).Err? {
      MissingJudgmentIsRetrievedQuery(init, allRelevant, q);
    } else {
      GetSomeIffKey(allRelevant, key);
    }
  }

  /** Judgments for queries that were not retrieved are ignored. */
  lemma {:induction false} ExtraJudgmentsIgnored(allRetrieved: Rankings, allRelevant: Rankings, otherRelevant: Rankings)
    requires forall i :: 0 <= i < |allRetrieved| ==> Get(allRelevant, allRetrieved[i].0) == Get(otherRelevant, allRetrieved[i].0)
    ensures MeanAveragePrecision(allRetrieved, allRelevant) == MeanAveragePrecision(allRetrieved, otherRelevant)
    ensures SumAveragePrecisions(allRetrieved, allRelevant) == SumAveragePrecisions(allRetrieved, otherRelevant)
  {
    if allRetrieved != [] {
      var init := allRetrieved[..|allRetrieved| - 1];
      assert forall i :: 0 <= i < |init| ==> init[i] == allRetrieved[i];
      ExtraJudgmentsIgnored(init, allRelevant, otherRelevant);
    }
  }

  /** The worked example: precision at 3 is 2/3 for ["1", "3", "5"] against ["1", "4", "5"]. */
  lemma PrecisionExample()
    ensures PrecisionAtK(["1", "3", "5"], ["1", "4", "5"], 3) == Ok(2.0 / 3.0)
  {
    var r := ["1", "3", "5"];
    assert r[..3] == r;
    assert r[..2] == ["1", "3"] && r[..1] == ["1"];
    assert Hits(["1"], ["1", "4", "5"]) == 1;
    assert Hits(["1", "3"], ["1", "4", "5"]) == 1;
    assert Hits(r, ["1", "4", "5"]) == 2;
  }

  /** The worked example: average precision is (1 + 2/3) / 3 = 5/9. */
  lemma AveragePrecisionExample()
    ensures AveragePrecision(["1", "3", "5"], ["1", "4", "5"]) == Ok(5.0 / 9.0)
  {
    var r := ["1", "3", "5"];
    assert r[..3] == r && r[..2] == ["1", "3"] && r[..1] == ["1"];
    assert Hits(["1"], ["1", "4", "5"]) == 1;
    assert Hits(r, ["1", "4", "5"]) == 2;
  }

  lemma QueryAExample()
    ensures AveragePrecision(["1", "3", "5"], ["1", "4", "5", "6"]) == Ok(5.0 / 12.0)
  {
    var r := ["1", "3", "5"];
    var rel := ["1", "4", "5", "6"];
    assert r[..3] == r && r[..2] == ["1", "3"] && r[..1] == ["1"];
    assert Hits(["1"], rel) == 1;
    assert Hits(r, rel) == 2;
  }

  lemma QueryBExample()
    ensures AveragePrecision(["4", "2", "1", "6"], ["2", "4", "3"]) == Ok(2.0 / 3.0)
  {
    var r := ["4", "2", "1", "6"];
    var rel := ["2", "4", "3"];
    assert r[..4] == r && r[..3] == ["4", "2", "1"] && r[..2] == ["4", "2"] && r[..1] == ["4"];
    assert Hits(["4"], rel) == 1;
    assert Hits(["4", "2"], rel) == 2;
  }

  /** The worked example: MAP of queries "A" and "B" is (5/12 + 2/3) / 2 = 13/24. */
  lemma MeanAveragePrecisionExample()
    ensures MeanAveragePrecision([("A", ["1", "3", "5"]), ("B", ["4", "2", "1", "6"])],
                                 [("A", ["1", "4", "5", "6"]), ("B", ["2", "4", "3"])]) == Ok(13.0 / 24.0)
  {
    QueryAExample();
    QueryBExample();
    var all: Rankings := [("A", ["1", "3", "5"]), ("B", ["4", "2", "1", "6"])];
    var rel: Rankings := [("A", ["1", "4", "5", "6"]), ("B", ["2", "4", "3"])];
    assert all[..1] == [("A", ["1", "3", "5"])] && all[..1][..0] == [];
    assert Get(rel, "A") == Some(["1", "4", "5", "6"]);
    assert Get(rel, "B") == Some(["2", "4", "3"]);
    assert SumAveragePrecisions(all[..1], rel) == Ok(5.0 / 12.0);
  }
}
