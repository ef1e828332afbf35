/**
 * Weighting scenarios on the frequency table of the four sample documents
 * ("To do is to be. To be is to do." and so on), built with neither stemming
 * nor stopword removal. The augmented-TF scenario uses a one-document table
 * of its own.
 */
module WeightingExamples {
  import opened Dicts
  import opened Weighting

  /** The counts of each sample document, as `Counter` builds them (first occurrence first). */
  const Counts1: TermCounts := [("to", 4), ("do", 2), ("is", 2), ("be", 2), (".", 2)]
  const Counts2: TermCounts := [("to", 2), ("be", 2), ("or", 1), ("not", 1), (".", 2), ("i", 2), ("am", 2), ("what", 1)]
  const Counts3: TermCounts := [("i", 2), ("think", 1), ("therefore", 1), ("am", 1), (".", 2), ("do", 3), ("be", 2)]
  const Counts4: TermCounts := [("do", 3), (",", 2), ("da", 3), (".", 2), ("let", 2), ("it", 2), ("be", 2)]

  /** The frequency table of the sample documents. */
  function SampleFreqFile(): FreqFile {
    [("1", Counts1), ("2", Counts2), ("3", Counts3), ("4", Counts4)]
  }

  /** No flags: the raw count, 4 for "to" in document "1". */
  lemma RawExample(log2: real -> real)
    ensures CalculateTfIdf("to", "1", SampleFreqFile(), NoFlags, log2).weight == 4.0
  {
  }

  /** `tf_log`: `1 + log2(2)` for "am" in document "2". */
  lemma LogExample(log2: real -> real)
    ensures CalculateTfIdf("am", "2", SampleFreqFile(), NoFlags.(tfLog := true), log2).weight == 1.0 + log2(2.0)
  {
  }

  /** `tf_binary`: 1 for "it" in document "4". */
  lemma BinaryExample(log2: real -> real)
    ensures CalculateTfIdf("it", "4", SampleFreqFile(), NoFlags.(tfBinary := true), log2).weight == 1.0
  {
  }

  /** `use_normalization`: 3/16 for "do" in the sixteen-token document "4". */
  lemma NormalizationExample(log2: real -> real)
    ensures CalculateTfIdf("do", "4", SampleFreqFile(), NoFlags.(useNormalization := true), log2).weight
         == 3.0 / 16.0
  {
  }

  /**
   * `tf_augmented` divides by the largest count of the term over all
   * documents, not by the largest count in the document. The table here is
   * its own, not the sample table: one document where "do" occurs 3 times and
   * "let" twice. The TF of "let" is 1 rather than `0.5 + 0.5 * 2/3`.
   */
  lemma AugmentedDividesByTermMaximum(log2: real -> real)
    ensures var ff: FreqFile := [("4", [("do", 3), ("let", 2)])];
      && CalculateTfIdf("let", "4", ff, NoFlags.(tfAugmented := true), log2).weight == 1.0
      && CalculateTfIdf("let", "4", ff, NoFlags.(tfAugmented := true), log2).weight != 0.5 + 0.5 * (2.0 / 3.0)
  {
  }
}
