/**
 * `create_inverted_file` and `get_weight_by_document_id` of the retrieval
 * engine: the frequency table of a document collection, the inverted file
 * term -> (document -> weight) built from it, and the projection of that file
 * onto one document.
 */
module Indexing {
  import opened Outcomes
  import opened Dicts
  import opened Preprocessing
  import opened Weighting

  /** The collection: document id -> document text. */
  type Documents = Dict<string, string>

  /** The postings of one term: document id -> weight. */
  type Postings = Dict<string, real>

  /** The inverted file: term -> postings. */
  type InvertedFile = Dict<string, Postings>

  /**
   * The first loop of `create_inverted_file`: `freq_file[doc_key] =
   * Counter(preprocess_text(doc_value, ...))` for each document in order.
   */
  function FreqFileOf(documents: Documents, useStemming: bool, useStopwordRemoval: bool, n: Normalizer): FreqFile {
    if documents == [] then []
    else
      var ff := FreqFileOf(documents[..|documents| - 1], useStemming, useStopwordRemoval, n);
      var (docKey, docValue) := documents[|documents| - 1];
      Put(ff, docKey, CountTokens(Preprocess(docValue, useStemming, useStopwordRemoval, n)))
  }

  /** The counts of the tokens of `text`, as the frequency table stores them. */
  function DocumentCounts(text: string, useStemming: bool, useStopwordRemoval: bool, n: Normalizer): TermCounts {
    CountTokens(Preprocess(text, useStemming, useStopwordRemoval, n))
  }

  /**
   * The frequency table has one entry per document, holding the counts of
   * that document's preprocessed tokens.
   */
  lemma {:induction false} FreqFileOfEntries(documents: Documents, useStemming: bool, useStopwordRemoval: bool,
                                             n: Normalizer, d: string)
    requires DistinctKeys(documents)
    ensures Get(FreqFileOf(documents, useStemming, useStopwordRemoval, n), d)
         == match Get(documents, d)
            case Some(text) => Some(DocumentCounts(text, useStemming, useStopwordRemoval, n))
            case None => None
    ensures DistinctKeys(FreqFileOf(documents, useStemming, useStopwordRemoval, n))
  {
    if documents != [] {
      var init := documents[..|documents| - 1];
      var (docKey, docValue) := documents[|documents| - 1];
      assert documents == init + [(docKey, docValue)];
      DistinctKeysAppend(init, docKey, docValue);
      FreqFileOfEntries(init, useStemming, useStopwordRemoval, n, d);
      var ff := FreqFileOf(init, useStemming, useStopwordRemoval, n);
      var counts := DocumentCounts(docValue, useStemming, useStopwordRemoval, n);
      GetPut(ff, docKey, counts, d);
      GetAppend(init, docKey, docValue, d);
      GetSomeIffKey(init, d);
      PutDistinct(ff, docKey, counts);
    }
  }

  /** `inverted_file.get(term)[doc]`, `None` when either key is missing. */
  function Posting(inv: InvertedFile, term: string, doc: string): Option<real> {
    match Get(inv, term)
    case Some(postings) => Get(postings, doc)
    case None => None
  }

  /** `inverted_file.setdefault(term, {})[doc] = weight`. */
  function PutPosting(inv: InvertedFile, term: string, doc: string, weight: real): InvertedFile {
    Put(inv, term, Put(GetOr(inv, term, []), doc, weight))
  }

  lemma PostingPutPosting(inv: InvertedFile, term: string, doc: string, weight: real, t: string, d: string)
    ensures Posting(PutPosting(inv, term, doc, weight), t, d)
         == if t == term && d == doc then Some(weight) else Posting(inv, t, d)
  {
    var postings := GetOr(inv, term, []);
    GetPut(inv, term, Put(postings, doc, weight), t);
    GetPut(postings, doc, weight, d);
  }

  /**
   * The inner loop of `create_inverted_file` for one document: the weight
   * of each of `terms` in `doc` is recorded under the term and the document
   * that `calculate_tf_idf` returns.
   */
  function AddTerms(inv: InvertedFile, doc: string, terms: seq<string>, freqFile: FreqFile,
                    m: WeightingMethod, log2: real -> real): InvertedFile
  {
    if terms == [] then inv
    else
      var r := AddTerms(inv, doc, terms[..|terms| - 1], freqFile, m, log2);
      var w := CalculateTfIdf(terms[|terms| - 1], doc, freqFile, m, log2);
      PutPosting(r, w.term, w.doc, w.weight)
  }

  /** The outer loop of `create_inverted_file` over the entries `docs` of the frequency table. */
  function IndexDocuments(docs: FreqFile, freqFile: FreqFile, m: WeightingMethod, log2: real -> real): InvertedFile {
    if docs == [] then []
    else
      var r := IndexDocuments(docs[..|docs| - 1], freqFile, m, log2);
      var (docKey, docFreqs) := docs[|docs| - 1];
      AddTerms(r, docKey, Keys(docFreqs), freqFile, m, log2)
  }

  /** What `create_inverted_file` returns. */
  function InvertedFileOf(documents: Documents, useStemming: bool, useStopwordRemoval: bool,
                          m: WeightingMethod, n: Normalizer, log2: real -> real): InvertedFile
  {
    var ff := FreqFileOf(documents, useStemming, useStopwordRemoval, n);
    IndexDocuments(ff, ff, m, log2)
  }

  /**
   * The inner loop sets a posting exactly for the pairs (t, doc) with t
   * among `terms`, to the weight of t in `doc`, and leaves the rest alone.
   */
  lemma {:induction false} PostingAddTerms(inv: InvertedFile, doc: string, terms: seq<string>, freqFile: FreqFile,
                                          m: WeightingMethod, log2: real -> real, t: string, d: string)
    ensures Posting(AddTerms(inv, doc, terms, freqFile, m, log2), t, d)
         == if d == doc && t in terms then Some(CalculateTfIdf(t, doc, freqFile, m, log2).weight)
            else Posting(inv, t, d)
  {
    if terms != [] {
      var init := terms[..|terms| - 1];
      var last := terms[|terms| - 1];
      assert terms == init + [last];
      PostingAddTerms(inv, doc, init, freqFile, m, log2, t, d);
      var w := CalculateTfIdf(last, doc, freqFile, m, log2);
      PostingPutPosting(AddTerms(inv, doc, init, freqFile, m, log2), w.term, w.doc, w.weight, t, d);
    }
  }

  /** A term of a document's counts, weighted in that document. */
  function Weight(t: string, d: string, freqFile: FreqFile, m: WeightingMethod, log2: real -> real): real {
    CalculateTfIdf(t, d, freqFile, m, log2).weight
  }

  lemma {:induction false} PostingIndexDocuments(docs: FreqFile, freqFile: FreqFile, m: WeightingMethod,
                                                log2: real -> real, t: string, d: string)
    requires DistinctKeys(docs)
    ensures Posting(IndexDocuments(docs, freqFile, m, log2), t, d)
         == match Get(docs, d)
            case Some(counts) => if t in Keys(counts) then Some(Weight(t, d, freqFile, m, log2)) else None
            case None => None
  {
    if docs != [] {
      var init := docs[..|docs| - 1];
      var (docKey, docFreqs) := docs[|docs| - 1];
      assert docs == init + [(docKey, docFreqs)];
      DistinctKeysAppend(init, docKey, docFreqs);
      PostingIndexDocuments(init, freqFile, m, log2, t, d);
      PostingAddTerms(IndexDocuments(init, freqFile, m, log2), docKey, Keys(docFreqs), freqFile, m, log2, t, d);
      GetAppend(init, docKey, docFreqs, d);
      GetSomeIffKey(init, d);
    }
  }

  /**
   * The inverted file holds a posting for `t` and `d` exactly when `d` is a
   * document of the collection and `t` one of its preprocessed tokens, and
   * the posting is `calculate_tf_idf` of `t` in `d` -- even when that weight
   * is 0, as for a term every document holds under `use_idf`.
   */
  lemma InvertedFileEntries(documents: Documents, useStemming: bool, useStopwordRemoval: bool,
                            m: WeightingMethod, n: Normalizer, log2: real -> real, t: string, d: string)
    requires DistinctKeys(documents)
    ensures var ff := FreqFileOf(documents, useStemming, useStopwordRemoval, n);
      Posting(InvertedFileOf(documents, useStemming, useStopwordRemoval, m, n, log2), t, d)
      == match Get(documents, d)
         case Some(text) =>
           if t in Preprocess(text, useStemming, useStopwordRemoval, n) then Some(Weight(t, d, ff, m, log2))
           else None
         case None => None
  {
    var ff := FreqFileOf(documents, useStemming, useStopwordRemoval, n);
    FreqFileOfEntries(documents, useStemming, useStopwordRemoval, n, d);
    PostingIndexDocuments(ff, ff, m, log2, t, d);
    match Get(documents, d)
    case Some(text) =>
      var tokens := Preprocess(text, useStemming, useStopwordRemoval, n);
      CountTokensCounts(tokens, t);
      GetSomeIffKey(CountTokens(tokens), t);
    case None =>
  }

  /** Every key of the inverted file, and every document key of its postings, occurs once; no postings are empty. */
  ghost predicate WellFormed(inv: InvertedFile) {
    && DistinctKeys(inv)
    && forall i :: 0 <= i < |inv| ==> inv[i].1 != [] && DistinctKeys(inv[i].1)
  }

  lemma PutPostingWellFormed(inv: InvertedFile, term: string, doc: string, weight: real)
    requires WellFormed(inv)
    ensures WellFormed(PutPosting(inv, term, doc, weight))
  {
    var postings := GetOr(inv, term, []);
    if Get(inv, term).Some? {
      GetSomeIsEntry(inv, term);
    }
    assert DistinctKeys(postings);
    var updated := Put(postings, doc, weight);
    PutDistinct(postings, doc, weight);
    PutDistinct(inv, term, updated);
    PutEntries(inv, term, updated);
    var r := Put(inv, term, updated);
    forall i | 0 <= i < |r|
      ensures r[i].1 != [] && DistinctKeys(r[i].1)
    {
      assert r[i] in r;
      if r[i] != (term, updated) {
        var j :| 0 <= j < |inv| && inv[j] == r[i];
      }
    }
  }

  lemma {:induction false} AddTermsWellFormed(inv: InvertedFile, doc: string, terms: seq<string>, freqFile: FreqFile,
                                             m: WeightingMethod, log2: real -> real)
    requires WellFormed(inv)
    ensures WellFormed(AddTerms(inv, doc, terms, freqFile, m, log2))
  {
    if terms != [] {
      AddTermsWellFormed(inv, doc, terms[..|terms| - 1], freqFile, m, log2);
      var w := CalculateTfIdf(terms[|terms| - 1], doc, freqFile, m, log2);
      PutPostingWellFormed(AddTerms(inv, doc, terms[..|terms| - 1], freqFile, m, log2), w.term, w.doc, w.weight);
    }
  }

  lemma {:induction false} IndexDocumentsWellFormed(docs: FreqFile, freqFile: FreqFile, m: WeightingMethod,
                                                   log2: real -> real)
    ensures WellFormed(IndexDocuments(docs, freqFile, m, log2))
  {
    if docs != [] {
      IndexDocumentsWellFormed(docs[..|docs| - 1], freqFile, m, log2);
      var (docKey, docFreqs) := docs[|docs| - 1];
      AddTermsWellFormed(IndexDocuments(docs[..|docs| - 1], freqFile, m, log2), docKey, Keys(docFreqs),
                         freqFile, m, log2);
    }
  }

  /** The first loop of `create_inverted_file`, which fills `freq_file`. */
  method BuildFreqFile(documents: Documents, useStemming: bool, useStopwordRemoval: bool, n: Normalizer)
    returns (freqFile: FreqFile)
    ensures freqFile == FreqFileOf(documents, useStemming, useStopwordRemoval, n)
  {
    freqFile := [];
    for i := 0 to |documents|
      invariant freqFile == FreqFileOf(documents[..i], useStemming, useStopwordRemoval, n)
    {
      var (docKey, docValue) := documents[i];
      var tokens := PreprocessText(docValue, useStemming, useStopwordRemoval, n);
      assert documents[..i + 1][..i] == documents[..i];
      freqFile := Put(freqFile, docKey, CountTokens(tokens));
    }
    assert documents[..|documents|] == documents;
  }

  /** The inner loop of `create_inverted_file`, over the terms of one document. */
  method AddDocumentTerms(inv0: InvertedFile, docKey: string, terms: seq<string>, freqFile: FreqFile,
                          m: WeightingMethod, log2: real -> real)
    returns (inv: InvertedFile)
    ensures inv == AddTerms(inv0, docKey, terms, freqFile, m, log2)
  {
    inv := inv0;
    for k := 0 to |terms|
      invariant inv == AddTerms(inv0, docKey, terms[..k], freqFile, m, log2)
    {
      var weight := CalculateTfIdf(terms[k], docKey, freqFile, m, log2);
      assert terms[..k + 1][..k] == terms[..k];
      inv := Put(inv, weight.term, Put(GetOr(inv, weight.term, []), weight.doc, weight.weight));
    }
    assert terms[..|terms|] == terms;
  }

  /** `create_inverted_file`. */
  method CreateInvertedFile(documents: Documents, useStemming: bool, useStopwordRemoval: bool,
                            m: WeightingMethod, n: Normalizer, log2: real -> real)
    returns (inv: InvertedFile)
    ensures inv == InvertedFileOf(documents, useStemming, useStopwordRemoval, m, n, log2)
    ensures WellFormed(inv)
  {
    var freqFile := BuildFreqFile(documents, useStemming, useStopwordRemoval, n);
    inv := [];
    for j := 0 to |freqFile|
      invariant inv == IndexDocuments(freqFile[..j], freqFile, m, log2)
    {
      var (docKey, docFreqs) := freqFile[j];
      ghost var prefix := freqFile[..j + 1];
      assert prefix[..|prefix| - 1] == freqFile[..j] && prefix[|prefix| - 1] == (docKey, docFreqs);
      inv := AddDocumentTerms(inv, docKey, Keys(docFreqs), freqFile, m, log2);
    }
    assert freqFile[..|freqFile|] == freqFile;
    IndexDocumentsWellFormed(freqFile, freqFile, m, log2);
  }

  /** `get_weight_by_document_id` over the first terms `inv` of the inverted file. */
  function WeightsOf(documentId: string, inv: InvertedFile): Dict<string, real> {
    if inv == [] then []
    else
      var r := WeightsOf(documentId, inv[..|inv| - 1]);
      var (fileKey, fileValue) := inv[|inv| - 1];
      match Get(fileValue, documentId)
      case Some(w) => Put(r, fileKey, w)
      case None => r
  }

  /**
   * The projection maps exactly the terms whose postings hold the document,
   * each to its stored weight.
   */
  lemma {:induction false} WeightsOfPostings(documentId: string, inv: InvertedFile, t: string)
    requires DistinctKeys(inv)
    ensures Get(WeightsOf(documentId, inv), t) == Posting(inv, t, documentId)
  {
    if inv != [] {
      var init := inv[..|inv| - 1];
      var (fileKey, fileValue) := inv[|inv| - 1];
      assert inv == init + [(fileKey, fileValue)];
      DistinctKeysAppend(init, fileKey, fileValue);
      WeightsOfPostings(documentId, init, t);
      GetAppend(init, fileKey, fileValue, t);
      GetSomeIffKey(init, t);
      match Get(fileValue, documentId)
      case Some(w) =>
        GetPut(WeightsOf(documentId, init), fileKey, w, t);
      case None =>
    }
  }

  /** `get_weight_by_document_id`. */
  method GetWeightByDocumentId(documentId: string, inv: InvertedFile) returns (docDict: Dict<string, real>)
    ensures docDict == WeightsOf(documentId, inv)
  {
    docDict := [];
    for i := 0 to |inv|
      invariant docDict == WeightsOf(documentId, inv[..i])
    {
      var (fileKey, fileValue) := inv[i];
      assert inv[..i + 1][..i] == inv[..i];
      GetSomeIffKey(fileValue, documentId);
      if documentId in Keys(fileValue) {
        docDict := Put(docDict, fileKey, Get(fileValue, documentId).value);
      }
    }
    assert inv[..|inv|] == inv;
  }

  /**
   * Projecting the inverted file of a collection onto document `d` yields
   * exactly the tokens of `d`, each with its weight in `d`.
   */
  lemma DocumentWeights(documents: Documents, useStemming: bool, useStopwordRemoval: bool,
                        m: WeightingMethod, n: Normalizer, log2: real -> real, d: string, t: string)
    requires DistinctKeys(documents)
    ensures var ff := FreqFileOf(documents, useStemming, useStopwordRemoval, n);
      Get(WeightsOf(d, InvertedFileOf(documents, useStemming, useStopwordRemoval, m, n, log2)), t)
      == match Get(documents, d)
         case Some(text) =>
           if t in Preprocess(text, useStemming, useStopwordRemoval, n) then Some(Weight(t, d, ff, m, log2))
           else None
         case None => None
  {
    var ff := FreqFileOf(documents, useStemming, useStopwordRemoval, n);
    IndexDocumentsWellFormed(ff, ff, m, log2);
    WeightsOfPostings(d, InvertedFileOf(documents, useStemming, useStopwordRemoval, m, n, log2), t);
    InvertedFileEntries(documents, useStemming, useStopwordRemoval, m, n, log2, t, d);
  }
}
