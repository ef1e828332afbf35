/**
 * Document-side term weighting of the retrieval engine: the per-document
 * frequency table built with `Counter`, and `calculate_tf_idf`.
 */
module Weighting {
  import opened Outcomes
  import opened Dicts

  /** `Counter(tokens)`: term -> raw count, terms in order of first occurrence. */
  type TermCounts = Dict<string, nat>

  /** `counts.get(term, 0)`. */
  function CountOf(counts: TermCounts, term: string): nat {
    GetOr(counts, term, 0)
  }

  /** The frequency table `freq_file`: document id -> (term -> raw count). */
  type FreqFile = Dict<string, TermCounts>

  function CountTokens(tokens: seq<string>): TermCounts {
    if tokens == [] then []
    else
      var counts := CountTokens(tokens[..|tokens| - 1]);
      var t := tokens[|tokens| - 1];
      Put<string, nat>(counts, t, CountOf(counts, t) + 1)
  }

  /** A term is counted exactly when it occurs, and its count is its number of occurrences. */
  lemma {:induction false} CountTokensCounts(tokens: seq<string>, t: string)
    ensures Get(CountTokens(tokens), t) == if t in tokens then Some(multiset(tokens)[t]) else None
  {
    if tokens != [] {
      var init := tokens[..|tokens| - 1];
      var last := tokens[|tokens| - 1];
      CountTokensCounts(init, t);
      CountTokensCounts(init, last);
      assert tokens == init + [last];
      CountStep(CountTokens(init), init, last, t);
    }
  }

  /** Counting one more token keeps the counts of `CountTokensCounts`. */
  lemma CountStep(counts: TermCounts, init: seq<string>, last: string, t: string)
    requires Get(counts, t) == if t in init then Some(multiset(init)[t]) else None
    requires Get(counts, last) == if last in init then Some(multiset(init)[last]) else None
    ensures Get(Put<string, nat>(counts, last, CountOf(counts, last) + 1), t)
         == if t in init + [last] then Some(multiset(init + [last])[t]) else None
  {
    GetPut<string, nat>(counts, last, CountOf(counts, last) + 1, t);
    if t == last {
      SnocOccurrences(init, last, last);
      assert CountOf(counts, last) == multiset(init)[last];
    } else {
      SnocOccurrences(init, last, t);
    }
  }

  /** Appending `last` adds one occurrence of it and none of any other term. */
  lemma SnocOccurrences(init: seq<string>, last: string, t: string)
    ensures t in init + [last] <==> t in init || t == last
    ensures multiset(init + [last])[t] == multiset(init)[t] + if t == last then 1 else 0
    ensures t in init <==> multiset(init)[t] > 0
  {
    assert multiset(init + [last]) == multiset(init) + multiset{last};
  }

  lemma {:induction false} CountTokensDistinct(tokens: seq<string>)
    ensures DistinctKeys(CountTokens(tokens))
  {
    if tokens != [] {
      var init := tokens[..|tokens| - 1];
      var last := tokens[|tokens| - 1];
      CountTokensDistinct(init);
      PutDistinct<string, nat>(CountTokens(init), last, CountOf(CountTokens(init), last) + 1);
    }
  }

  /** `sum(counts.values())`. */
  function TotalCount(counts: TermCounts): nat {
    if counts == [] then 0 else counts[0].1 + TotalCount(counts[1..])
  }

  lemma TotalCountPut(counts: TermCounts, t: string, c: nat)
    ensures TotalCount(Put(counts, t, c)) + CountOf(counts, t) == TotalCount(counts) + c
  {
  }

  lemma {:induction false} TotalCountAtLeast(counts: TermCounts, t: string)
    ensures CountOf(counts, t) <= TotalCount(counts)
  {
    if counts != [] && counts[0].0 != t {
      TotalCountAtLeast(counts[1..], t);
    }
  }

  /** The raw counts of a document add up to its number of tokens. */
  lemma {:induction false} CountTokensTotal(tokens: seq<string>)
    ensures TotalCount(CountTokens(tokens)) == |tokens|
  {
    if tokens != [] {
      var init := tokens[..|tokens| - 1];
      var last := tokens[|tokens| - 1];
      CountTokensTotal(init);
      TotalCountPut(CountTokens(init), last, CountOf(CountTokens(init), last) + 1);
    }
  }

  /** The flags of `document_weighting_method`; a missing flag is `False`. */
  datatype WeightingMethod = WeightingMethod(
    tfRaw: bool, tfLog: bool, tfBinary: bool, tfAugmented: bool,
    useIdf: bool, useNormalization: bool)

  const NoFlags := WeightingMethod(false, false, false, false, false, false)

  /** The dictionary `{"term": ..., "doc": ..., "weight": ...}` that `calculate_tf_idf` returns. */
  datatype TermWeight = TermWeight(term: string, doc: string, weight: real)

  /** `freq_file.get(doc, {}).get(term, 0)`. */
  function Frequency(term: string, doc: string, freqFile: FreqFile): nat {
    CountOf(GetOr(freqFile, doc, []), term)
  }

  /** `df`: the number of documents whose table has `term` as a key. */
  function DocumentFrequency(term: string, freqFile: FreqFile): (df: nat)
    ensures df <= |freqFile|
  {
    if freqFile == [] then 0
    else (if term in Keys(freqFile[0].1) then 1 else 0) + DocumentFrequency(term, freqFile[1..])
  }

  function Max(a: nat, b: nat): nat {
    if a < b then b else a
  }

  /**
   * `max_freq`: the largest count of `term` over all documents of the table
   * (1 for an empty table).
   */
  function MaxTermFrequency(term: string, freqFile: FreqFile): nat {
    if freqFile == [] then 1
    else if |freqFile| == 1 then CountOf(freqFile[0].1, term)
    else Max(CountOf(freqFile[0].1, term), MaxTermFrequency(term, freqFile[1..]))
  }

  /** The term's count in every document is at most `max_freq`. */
  lemma {:induction false} MaxTermFrequencyIsMax(term: string, freqFile: FreqFile, i: int)
    requires 0 <= i < |freqFile|
    ensures CountOf(freqFile[i].1, term) <= MaxTermFrequency(term, freqFile)
  {
    if i > 0 {
      MaxTermFrequencyIsMax(term, freqFile[1..], i - 1);
    }
  }

  /** `doc_length`: the number of tokens of `doc`, i.e. the sum of its raw counts. */
  function DocLength(doc: string, freqFile: FreqFile): nat {
    TotalCount(GetOr(freqFile, doc, []))
  }

  lemma {:induction false} DocumentFrequencyPositive(term: string, freqFile: FreqFile, i: int)
    requires 0 <= i < |freqFile| && term in Keys(freqFile[i].1)
    ensures DocumentFrequency(term, freqFile) >= 1
  {
    if i > 0 {
      DocumentFrequencyPositive(term, freqFile[1..], i - 1);
    }
  }

  /**
   * A term that occurs in `doc` occurs in at least one and at most all
   * documents and is no more frequent than its maximum: neither the IDF nor
   * the augmented TF can divide by zero.
   */
  lemma FrequencyBounds(term: string, doc: string, freqFile: FreqFile)
    requires Frequency(term, doc, freqFile) > 0
    ensures 1 <= DocumentFrequency(term, freqFile) <= |freqFile|
    ensures Frequency(term, doc, freqFile) <= MaxTermFrequency(term, freqFile)
  {
    var counts := Get(freqFile, doc).value;
    GetSomeIsEntry(freqFile, doc);
    var i :| 0 <= i < |freqFile| && freqFile[i] == (doc, counts);
    GetSomeIffKey(counts, term);
    DocumentFrequencyPositive(term, freqFile, i);
    MaxTermFrequencyIsMax(term, freqFile, i);
  }

  /** A term occurs in `doc` no more often than `doc` is long: the normalisation cannot divide by zero. */
  lemma DocLengthAtLeastFrequency(term: string, doc: string, freqFile: FreqFile)
    ensures Frequency(term, doc, freqFile) <= DocLength(doc, freqFile)
  {
    TotalCountAtLeast(GetOr(freqFile, doc, []), term);
  }

  function Tf(f: nat, term: string, freqFile: FreqFile, m: WeightingMethod, log2: real -> real): real
    requires 0 < f <= MaxTermFrequency(term, freqFile)
  {
    if m.tfRaw then f as real
    else if m.tfLog then 1.0 + log2(f as real)
    else if m.tfBinary then 1.0
    else if m.tfAugmented then 0.5 + 0.5 * (f as real / MaxTermFrequency(term, freqFile) as real)
    else f as real
  }

  function Idf(term: string, freqFile: FreqFile, m: WeightingMethod, log2: real -> real): real
    requires m.useIdf ==> DocumentFrequency(term, freqFile) > 0
  {
    if m.useIdf then log2(|freqFile| as real / DocumentFrequency(term, freqFile) as real) else 1.0
  }

  function Normalization(doc: string, freqFile: FreqFile, m: WeightingMethod): real {
    if m.useNormalization then
      var docLength := DocLength(doc, freqFile);
      1.0 / (if docLength == 0 then 1 else docLength) as real
    else 1.0
  }

  /**
   * `calculate_tf_idf`: the weight of `term` in `doc` is TF x IDF x
   * normalisation, and 0 when the term does not occur in the document.
   */
  function CalculateTfIdf(term: string, doc: string, freqFile: FreqFile, m: WeightingMethod, log2: real -> real)
    : (r: TermWeight)
    ensures r.term == term && r.doc == doc
    ensures Frequency(term, doc, freqFile) == 0 ==> r.weight == 0.0
  {
    var freqInDoc := Frequency(term, doc, freqFile);
    if freqInDoc == 0 then TermWeight(term, doc, 0.0)
    else
      FrequencyBounds(term, doc, freqFile);
      var tf := Tf(freqInDoc, term, freqFile, m, log2);
      var idf := Idf(term, freqFile, m, log2);
      var normalization := Normalization(doc, freqFile, m);
      TermWeight(term, doc, tf * idf * normalization)
  }

  /**
   * The IDF factor is `log2(N / df)` under `use_idf` and 1 otherwise; the
   * normalisation factor is `1 / doc_length` under `use_normalization` and 1
   * otherwise.  `df` and `doc_length` are at least 1, so neither division can
   * fail and the guard against an empty document never fires.
   */
  lemma WeightFactors(term: string, doc: string, freqFile: FreqFile, m: WeightingMethod, log2: real -> real)
    requires Frequency(term, doc, freqFile) > 0
    ensures DocumentFrequency(term, freqFile) >= 1 && DocLength(doc, freqFile) >= 1
    ensures Idf(term, freqFile, m, log2)
         == if m.useIdf then log2(|freqFile| as real / DocumentFrequency(term, freqFile) as real) else 1.0
    ensures Normalization(doc, freqFile, m) == if m.useNormalization then 1.0 / DocLength(doc, freqFile) as real else 1.0
  {
    FrequencyBounds(term, doc, freqFile);
    DocLengthAtLeastFrequency(term, doc, freqFile);
  }

  /** The TF variants, in the order the flags are consulted. */
  datatype TfScheme = RawTf | LogTf | BinaryTf | AugmentedTf

  /** The TF variant a set of flags selects: raw > log > binary > augmented, raw when none is set. */
  function Scheme(m: WeightingMethod): TfScheme {
    if m.tfRaw then RawTf
    else if m.tfLog then LogTf
    else if m.tfBinary then BinaryTf
    else if m.tfAugmented then AugmentedTf
    else RawTf
  }

  /** The flags that set exactly the TF flag of `scheme`. */
  function OnlyScheme(scheme: TfScheme, useIdf: bool, useNormalization: bool): WeightingMethod {
    WeightingMethod(scheme == RawTf, scheme == LogTf, scheme == BinaryTf, scheme == AugmentedTf,
                    useIdf, useNormalization)
  }

  /**
   * Only the highest-priority TF flag matters: the weight under any flags is
   * the weight under the flags that set that one alone (`tf_raw` when none is set).
   */
  lemma TfFlagPrecedence(term: string, doc: string, freqFile: FreqFile, m: WeightingMethod, log2: real -> real)
    ensures CalculateTfIdf(term, doc, freqFile, m, log2)
         == CalculateTfIdf(term, doc, freqFile, OnlyScheme(Scheme(m), m.useIdf, m.useNormalization), log2)
  {
  }

  /** With every flag off, the weight is the raw frequency. */
  lemma RawFrequencyWhenNoFlags(term: string, doc: string, freqFile: FreqFile, log2: real -> real)
    ensures CalculateTfIdf(term, doc, freqFile, NoFlags, log2).weight == Frequency(term, doc, freqFile) as real
  {
  }

  /** `tf_log` alone: `1 + log2(f)` for a term that occurs. */
  lemma LogTfWeight(term: string, doc: string, freqFile: FreqFile, log2: real -> real)
    requires Frequency(term, doc, freqFile) > 0
    ensures CalculateTfIdf(term, doc, freqFile, NoFlags.(tfLog := true), log2).weight
         == 1.0 + log2(Frequency(term, doc, freqFile) as real)
  {
  }

  /** `tf_binary` alone: 1 when the term occurs, 0 when it does not. */
  lemma BinaryTfWeight(term: string, doc: string, freqFile: FreqFile, log2: real -> real)
    ensures CalculateTfIdf(term, doc, freqFile, NoFlags.(tfBinary := true), log2).weight
         == if Frequency(term, doc, freqFile) > 0 then 1.0 else 0.0
  {
  }

  /**
   * `tf_augmented` alone: `0.5 + 0.5 * f / max`, where `max` is the largest
   * count of this term over all documents; the weight lies in (0.5, 1].
   */
  lemma AugmentedTfWeight(term: string, doc: string, freqFile: FreqFile, log2: real -> real)
    requires Frequency(term, doc, freqFile) > 0
    ensures MaxTermFrequency(term, freqFile) >= Frequency(term, doc, freqFile)
    ensures var w := CalculateTfIdf(term, doc, freqFile, NoFlags.(tfAugmented := true), log2).weight;
      && w == 0.5 + 0.5 * (Frequency(term, doc, freqFile) as real / MaxTermFrequency(term, freqFile) as real)
      && 0.5 < w <= 1.0
  {
    FrequencyBounds(term, doc, freqFile);
    var f := Frequency(term, doc, freqFile) as real;
    var mx := MaxTermFrequency(term, freqFile) as real;
    RatioAtMostOne(f, mx);
  }

  lemma RatioAtMostOne(a: real, b: real)
    requires 0.0 < a <= b
    ensures 0.0 < a / b <= 1.0
  {
    assert a / b * b == a;
  }

  /** `use_idf` alone: `f * log2(N / df)` with `1 <= df <= N`, so the ratio is at least 1. */
  lemma IdfWeight(term: string, doc: string, freqFile: FreqFile, log2: real -> real)
    requires Frequency(term, doc, freqFile) > 0
    ensures 1 <= DocumentFrequency(term, freqFile) <= |freqFile|
    ensures CalculateTfIdf(term, doc, freqFile, NoFlags.(useIdf := true), log2).weight
         == Frequency(term, doc, freqFile) as real
            * log2(|freqFile| as real / DocumentFrequency(term, freqFile) as real)
  {
    FrequencyBounds(term, doc, freqFile);
  }

  /**
   * `use_normalization` alone: `f / doc_length`; a document holding the term
   * is never empty, so the guard against an empty document never fires.
   */
  lemma NormalizedWeight(term: string, doc: string, freqFile: FreqFile, log2: real -> real)
    requires Frequency(term, doc, freqFile) > 0
    ensures DocLength(doc, freqFile) >= Frequency(term, doc, freqFile)
    ensures CalculateTfIdf(term, doc, freqFile, NoFlags.(useNormalization := true), log2).weight
         == Frequency(term, doc, freqFile) as real / DocLength(doc, freqFile) as real
  {
    FrequencyBounds(term, doc, freqFile);
    DocLengthAtLeastFrequency(term, doc, freqFile);
  }

  /**
   * `tf_log` with `use_idf`, the configuration the index is built with:
   * `(1 + log2(f)) * log2(N / df)` for a term that occurs, with `1 <= df <= N`.
   */
  lemma LogIdfWeight(term: string, doc: string, freqFile: FreqFile, log2: real -> real)
    requires Frequency(term, doc, freqFile) > 0
    ensures 1 <= DocumentFrequency(term, freqFile) <= |freqFile|
    ensures CalculateTfIdf(term, doc, freqFile, NoFlags.(tfLog := true, useIdf := true), log2).weight
         == (1.0 + log2(Frequency(term, doc, freqFile) as real))
            * log2(|freqFile| as real / DocumentFrequency(term, freqFile) as real)
  {
    FrequencyBounds(term, doc, freqFile);
  }

  /**
   * `tf_augmented` with `use_normalization`: the augmented TF times
   * `1 / doc_length`, where the document is never empty.
   */
  lemma AugmentedNormalizedWeight(term: string, doc: string, freqFile: FreqFile, log2: real -> real)
    requires Frequency(term, doc, freqFile) > 0
    ensures 1 <= MaxTermFrequency(term, freqFile) && 1 <= DocLength(doc, freqFile)
    ensures CalculateTfIdf(term, doc, freqFile, NoFlags.(tfAugmented := true, useNormalization := true), log2).weight
         == (0.5 + 0.5 * (Frequency(term, doc, freqFile) as real / MaxTermFrequency(term, freqFile) as real))
            * (1.0 / DocLength(doc, freqFile) as real)
  {
    FrequencyBounds(term, doc, freqFile);
    DocLengthAtLeastFrequency(term, doc, freqFile);
  }

  /**
   * `tf_binary` with `use_idf` and `use_normalization`: a TF of 1, so the
   * weight is `log2(N / df) * (1 / doc_length)` for a term that occurs.
   */
  lemma BinaryIdfNormalizedWeight(term: string, doc: string, freqFile: FreqFile, log2: real -> real)
    requires Frequency(term, doc, freqFile) > 0
    ensures 1 <= DocumentFrequency(term, freqFile) <= |freqFile| && 1 <= DocLength(doc, freqFile)
    ensures CalculateTfIdf(term, doc, freqFile, NoFlags.(tfBinary := true, useIdf := true, useNormalization := true), log2).weight
         == log2(|freqFile| as real / DocumentFrequency(term, freqFile) as real)
            * (1.0 / DocLength(doc, freqFile) as real)
  {
    FrequencyBounds(term, doc, freqFile);
    DocLengthAtLeastFrequency(term, doc, freqFile);
  }

  /** A term held by every document has IDF `log2(1)`, so with `use_idf` its weight is 0 everywhere. */
  lemma UbiquitousTermWeighsZero(term: string, doc: string, freqFile: FreqFile, m: WeightingMethod, log2: real -> real)
    requires m.useIdf && log2(1.0) == 0.0
    requires DocumentFrequency(term, freqFile) == |freqFile|
    ensures CalculateTfIdf(term, doc, freqFile, m, log2).weight == 0.0
  {
    if Frequency(term, doc, freqFile) > 0 {
      FrequencyBounds(term, doc, freqFile);
      assert |freqFile| as real / DocumentFrequency(term, freqFile) as real == 1.0;
    }
  }
}
