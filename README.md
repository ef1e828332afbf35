# IR-System-BE core, modelled in Dafny

This project models the sequential core of an information-retrieval back end. It has three parts.

1. **A vector-space retrieval engine**, the `RetrievalService` of `app/test/retrieval_test.py`. It covers:
   - text preprocessing: tokenise, stem, drop stopwords, lowercase;
   - a per-document frequency table and the `calculate_tf_idf` weighting;
   - building the inverted file;
   - sparse dot-product ranking;
   - projecting the inverted file onto one document.
2. **The evaluation metrics** of `app/utils/evaluation.py`: precision at k, average precision and mean average precision, with the exceptions the code raises.
3. **The CISI-format line parsers**:
   - the relevance-judgment (qrels) splitter;
   - the four-field document and query parsers;
   - the single-string document parser with its `neglect` flag;
   - the two line readers of the query-expansion tests.

Python dictionaries keep their insertion order, so they are association lists `seq<(K, V)>` (module `Dicts`). `d[k] = v` is `Put`: an existing key keeps its position and gets the new value, and a new key is appended. Each imperative loop of the source is a Dafny `method` with a loop. The method is proved equal to a specification function: a fold over the input from the back. The properties are then proved as lemmas about that function, and where possible against an independent reference definition.

Modules, one per file:

- `outcomes.dfy`: `Option` and `Result`.
- `dicts.dfy`: the dictionary model.
- `text.dfy`:
  - `str.strip`, `split()`, `split(" ")`, `" ".join`, `startswith` and ASCII `lower()`;
  - `int(s)` and `str(n)`.
- `preprocessing.dfy`: `remove_stopwords`, `stem_tokens` and `preprocess_text`. The NLTK tokenizer, the Porter stemmer and the stopword list are parameters (`Normalizer`).
- `weighting.dfy`:
  - `Counter` as `CountTokens`;
  - `calculate_tf_idf` over `real`, with `math.log2` as a parameter.
- `weighting_examples.dfy`: weights on the four sample documents of the tests, and a one-document table of its own that shows which maximum the augmented TF divides by.
- `indexing.dfy`: `create_inverted_file` and `get_weight_by_document_id`.
- `similarity.dfy`: `calculate_similarity`.
- `evaluation.dfy`: `calculate_precision_at_k`, `calculate_average_precision` and `calculate_map`.
- `qrels.dfy`: `parser_qrels` (`app/data/parsing/func_parser.py`) and the identical loop of `parsing/parser_qrels.py`.
- `cisi_lines.dfy`: the line classification shared by the CISI parsers that strip each line first.
- `cisi_fields.dfy`: the four-field parser of `parsing/parser_docs.py` and `app/data/parsing/parser_query.py`. The two scripts run the same loop.
- `cisi_text.dfy`: the single-string parser of `app/data/parsing/parser_docs.py`.
- `cisi_sections.dfy`: `read_cisi_collection` and `read_queries` of `tests/services/test_query_expansion.py`. The two functions run the same loop.

## Model

| member | source | states |
|---|---|---|
| Preprocessing.RemoveStopwords | app/test/retrieval_test.py:68-73 | The result is the input tokens that are not stopwords, in input order. A token is in the result iff it is in the input and is not a stopword. The result is never longer than the input. |
| Preprocessing.WithoutStopwordsMembers | app/test/retrieval_test.py:68-73 | Membership in the filtered list is exactly "in the input and not a stopword", and filtering never lengthens the list. |
| Preprocessing.WithoutStopwordsConcat | app/test/retrieval_test.py:68-73 | Filtering distributes over concatenation, so the filter keeps order. |
| Preprocessing.WithoutStopwordsKeepsAll | app/test/retrieval_test.py:68-73 | Filtering leaves the list unchanged iff no token is a stopword. |
| Preprocessing.StemTokens | app/test/retrieval_test.py:89-99 | Same length, and each token is replaced by its stem. |
| Preprocessing.LowerAll | app/test/retrieval_test.py:122 | Same length, and each token is lowercased. |
| Preprocessing.PreprocessText | app/test/retrieval_test.py:116-122 | The result is tokenize, then stem if asked, then drop stopwords if asked, then lowercase. |
| Preprocessing.PreprocessIsLowerCase | app/test/retrieval_test.py:116-122 | Every output token is lowercase, and the output is as long as the token list after filtering. |
| Preprocessing.NoStopwordsWhenFilteredTokensAreLowerCase | app/test/retrieval_test.py:116-122 | When the stemmed tokens are already lowercase, no stopword survives. |
| Preprocessing.CapitalisedStopwordSurvives | app/test/retrieval_test.py:116-122 | Filtering runs before lowercasing, so "To" survives the stopword list {"to", "be"} and comes out as "to". |
| Weighting.CountTokensCounts | app/test/retrieval_test.py:161 | `Counter(tokens)` has a term iff the term occurs, with its number of occurrences as the count. |
| Weighting.CountTokensDistinct | app/test/retrieval_test.py:161 | Each term is counted under one key. |
| Weighting.CountTokensTotal | app/test/retrieval_test.py:161 | The counts sum to the number of tokens. |
| Weighting.DocumentFrequency | app/test/retrieval_test.py:232-233 | `df` never exceeds `N`. |
| Weighting.MaxTermFrequencyIsMax | app/test/retrieval_test.py:224-225 | The term's count in every document is at most `max_freq`. |
| Weighting.FrequencyBounds | app/test/retrieval_test.py:206-234 | For a term that occurs in the document: `1 <= df <= N` and `freq <= max_freq`, so neither the IDF nor the augmented TF divides by zero. |
| Weighting.DocLengthAtLeastFrequency | app/test/retrieval_test.py:236-242 | A term's count in a document is at most the document's length, so the normalisation does not divide by zero once the term occurs. |
| Weighting.CalculateTfIdf | app/test/retrieval_test.py:198-246 | The result names the given term and document. The weight is 0 whenever the term does not occur in the document, whatever the flags. |
| Weighting.WeightFactors | app/test/retrieval_test.py:231-242 | IDF is `log2(N/df)` under `use_idf` and 1.0 otherwise. Normalisation is `1/doc_length` under `use_normalization` and 1 otherwise. `df >= 1` and `doc_length >= 1`. |
| Weighting.TfFlagPrecedence | app/test/retrieval_test.py:216-229 | Only the highest-priority TF flag matters: raw > log > binary > augmented, and raw when none is set. |
| Weighting.RawFrequencyWhenNoFlags | app/test/retrieval_test.py:227-229 | With every flag off, the weight is the raw frequency. |
| Weighting.LogTfWeight | app/test/retrieval_test.py:219-220 | `tf_log` alone gives `1 + log2(f)`. |
| Weighting.BinaryTfWeight | app/test/retrieval_test.py:221-222 | `tf_binary` alone gives 1 if the term occurs and 0 otherwise. |
| Weighting.AugmentedTfWeight | app/test/retrieval_test.py:223-226 | `tf_augmented` alone gives `0.5 + 0.5·f/max_freq`, where `max_freq` is taken over all documents. The value lies in (0.5, 1]. |
| Weighting.IdfWeight | app/test/retrieval_test.py:231-234 | `use_idf` alone gives `f·log2(N/df)`, with `1 <= df <= N`. |
| Weighting.NormalizedWeight | app/test/retrieval_test.py:236-244 | `use_normalization` alone gives `f/doc_length`. The floor against an empty document never applies. |
| Weighting.LogIdfWeight | app/test/retrieval_test.py:216-246 | `tf_log` with `use_idf`, the configuration the index is built with, gives `(1 + log2 f)·log2(N/df)`, with `1 <= df <= N`. |
| Weighting.AugmentedNormalizedWeight | app/test/retrieval_test.py:216-246 | `tf_augmented` with `use_normalization` gives `(0.5 + 0.5·f/max_freq)·(1/doc_length)`, with `max_freq >= 1` and `doc_length >= 1`. |
| Weighting.BinaryIdfNormalizedWeight | app/test/retrieval_test.py:216-246 | `tf_binary` with `use_idf` and `use_normalization` gives `log2(N/df)·(1/doc_length)`, with `1 <= df <= N` and `doc_length >= 1`. |
| Weighting.UbiquitousTermWeighsZero | app/test/retrieval_test.py:232-234 | A term that every document holds weighs 0 under `use_idf`, given `log2(1) = 0`. |
| WeightingExamples.RawExample | tests/services/test_retrieval_service.py:120-122 | With no flags, "to" in document "1" weighs 4. |
| WeightingExamples.LogExample | tests/services/test_retrieval_service.py:126-129 | `tf_log`: "am" in document "2" weighs `1 + log2(2)`. |
| WeightingExamples.BinaryExample | tests/services/test_retrieval_service.py:140-143 | `tf_binary`: "it" in document "4" weighs 1. |
| WeightingExamples.NormalizationExample | tests/services/test_retrieval_service.py:155-159 | `use_normalization`: "do" in document "4" weighs 3/16. |
| WeightingExamples.AugmentedDividesByTermMaximum | app/test/retrieval_test.py:223-226 | The augmented TF divides by the term's maximum over documents, not by the document's maximum. On a one-document table of its own (not the sample documents), with counts do:3 and let:2, "let" weighs 1, not `0.5 + 0.5·2/3`. |
| Indexing.FreqFileOfEntries | app/test/retrieval_test.py:158-164 | The frequency table has one entry per document, holding the counts of that document's preprocessed tokens. Its keys are distinct. |
| Indexing.BuildFreqFile | app/test/retrieval_test.py:158-164 | The first loop builds exactly that table. |
| Indexing.PostingPutPosting | app/test/retrieval_test.py:173-175 | `setdefault(term, {})[doc] = w` sets that one posting and changes no other. |
| Indexing.AddDocumentTerms | app/test/retrieval_test.py:169-175 | The inner loop adds one posting per term of the document. |
| Indexing.PostingAddTerms | app/test/retrieval_test.py:169-175 | After the inner loop, a posting (t, doc) exists for exactly the document's terms, holding `calculate_tf_idf`'s weight. Other postings are unchanged. |
| Indexing.PostingIndexDocuments | app/test/retrieval_test.py:166-175 | After the outer loop, posting (t, d) exists iff t is a key of d's counts, and it holds d's weight. |
| Indexing.InvertedFileEntries | app/test/retrieval_test.py:158-177 | `index[t][d]` exists iff d is a document and t is one of its preprocessed tokens, and it holds the weight. Zero weights are kept. |
| Indexing.PutPostingWellFormed | app/test/retrieval_test.py:173-175 | Adding a posting keeps the terms distinct, the documents within each posting list distinct, and no posting list empty. |
| Indexing.AddTermsWellFormed | app/test/retrieval_test.py:169-175 | The inner loop keeps that shape. |
| Indexing.IndexDocumentsWellFormed | app/test/retrieval_test.py:166-177 | The outer loop produces that shape. |
| Indexing.CreateInvertedFile | app/test/retrieval_test.py:140-177 | The method returns the inverted file of the reference fold, and the result has that shape. |
| Indexing.GetWeightByDocumentId | app/test/retrieval_test.py:297-301 | The method returns the projection of the inverted file onto the document. |
| Indexing.WeightsOfPostings | app/test/retrieval_test.py:297-301 | The projection maps exactly the terms whose postings hold the document, each to its stored weight. |
| Indexing.DocumentWeights | app/test/retrieval_test.py:158-177 | Projecting a built inverted file onto d gives exactly d's preprocessed tokens, each with its weight. |
| Similarity.AddQueryTerm | app/test/retrieval_test.py:267-271 | The inner loop adds `q·w` for each posting of one query term, starting unseen documents at 0. |
| Similarity.CalculateSimilarity | app/test/retrieval_test.py:263-282 | The method returns the accumulated scores, sorted by decreasing score. |
| Similarity.ScoreUntouched | app/test/retrieval_test.py:263-271 | A document that no query term reaches scores 0 in the reference dot product. |
| Similarity.AddPostingsScores | app/test/retrieval_test.py:267-271 | After one term, each document's accumulator is its old value plus `q·w` if the term's postings hold it, and is otherwise unchanged. |
| Similarity.AccumulateScores | app/test/retrieval_test.py:263-271 | A document gets a score iff some query term present in the index has a posting for it. The score is Σ q[t]·index[t][d]. |
| Similarity.AddPostingsDistinct | app/test/retrieval_test.py:267-271 | The accumulator names each document once. |
| Similarity.AccumulateDistinct | app/test/retrieval_test.py:263-271 | So do the accumulated scores. |
| Similarity.InsertByScoreMultiset | app/test/retrieval_test.py:274-280 | Inserting an item adds exactly that item. |
| Similarity.InsertByScoreOrdered | app/test/retrieval_test.py:274-280 | Inserting into a non-increasing list keeps it non-increasing. |
| Similarity.SortByScoreEntries | app/test/retrieval_test.py:274-280 | The sort is a permutation, and scores come out non-increasing. |
| Similarity.InsertByScoreGet | app/test/retrieval_test.py:274-280 | Inserting a new document keeps the keys distinct and adds exactly that document with its score. |
| Similarity.SortByScoreGet | app/test/retrieval_test.py:274-280 | Sorting keeps every document's score and the key set. |
| Similarity.SimilarityScores | app/test/retrieval_test.py:263-282 | The result's keys are exactly the documents that query terms reach, each with its dot product. Keys are distinct, and values are non-increasing in order. |
| Evaluation.Hits | app/utils/evaluation.py:29-33 | The hit count never exceeds the number of items scanned. |
| Evaluation.CalculatePrecisionAtK | app/utils/evaluation.py:15-35 | The loop computes hits in the first k, divided by k. It raises IndexError when k > len, ZeroDivisionError when k = 0, and gives 0 for k < 0. |
| Evaluation.HitsZero | app/utils/evaluation.py:29-33 | No hits iff no scanned item is relevant. |
| Evaluation.PrecisionAtKBounds | app/utils/evaluation.py:29-35 | A value is returned iff k < 0 or 1 ≤ k ≤ len. The value lies in [0, 1]. |
| Evaluation.CalculateAveragePrecision | app/utils/evaluation.py:38-59 | The loop sums precision@(i+1) over the relevant positions and divides by `len(relevant_docs)`. It raises ZeroDivisionError when that length is 0. |
| Evaluation.SumPrecisionsBounds | app/utils/evaluation.py:51-56 | The sum of precisions lies between 0 and the number of hits. |
| Evaluation.SumPrecisionsZero | app/utils/evaluation.py:51-56 | The sum is 0 iff there is no hit. |
| Evaluation.HitsOfDistinct | app/utils/evaluation.py:51-56 | Without duplicates, hits equal the number of distinct relevant items retrieved. |
| Evaluation.DistinctElementsAtMostLength | app/utils/evaluation.py:58 | A list has at most as many distinct elements as items. |
| Evaluation.AveragePrecisionNonNegative | app/utils/evaluation.py:51-59 | AP is defined iff `relevant_docs` is non-empty. AP is at least 0, and is exactly 0 iff no retrieved document is relevant. |
| Evaluation.HitsAtMostRelevant | app/utils/evaluation.py:51-58 | Without duplicates in the retrieved list, hits are at most `len(relevant_docs)`. |
| Evaluation.AveragePrecisionAtMostOne | app/utils/evaluation.py:51-59 | Without duplicates in the retrieved list, AP ≤ 1. |
| Evaluation.AveragePrecisionWithDuplicates | app/utils/evaluation.py:51-59 | With duplicates the bound fails: retrieved ["1","1"] and relevant ["1"] give AP 2. |
| Evaluation.CalculateMap | app/utils/evaluation.py:62-85 | The loop computes the sum of per-query AP divided by the number of retrieved queries. It raises on a query without judgments, and ZeroDivisionError when there are no queries. |
| Evaluation.SumAveragePrecisionsErr | app/utils/evaluation.py:76-82 | Once the loop raises, the result is that exception. |
| Evaluation.SumAveragePrecisionsOk | app/utils/evaluation.py:76-82 | The sum is defined iff every retrieved query has a non-empty judgment list. The sum is then non-negative. |
| Evaluation.MeanAveragePrecisionOk | app/utils/evaluation.py:62-85 | MAP is defined iff there is at least one query and each has a non-empty judgment list. MAP is then at least 0. |
| Evaluation.MissingJudgmentIsRetrievedQuery | app/utils/evaluation.py:76-78 | The missing-judgment exception names a retrieved query that has no judgment entry. |
| Evaluation.ExtraJudgmentsIgnored | app/utils/evaluation.py:76-82 | Judgments for queries that were not retrieved change nothing. |
| Evaluation.PrecisionExample | app/utils/evaluation.py:93-97 | For retrieved [1,3,5] and relevant [1,4,5], P@3 = 2/3 (output 0.666…). |
| Evaluation.AveragePrecisionExample | app/utils/evaluation.py:93-98 | For the same lists, AP = 5/9 (output 0.555…). |
| Evaluation.QueryAExample | app/utils/evaluation.py:100-108 | AP of query A is 5/12. |
| Evaluation.QueryBExample | app/utils/evaluation.py:100-108 | AP of query B is 2/3. |
| Evaluation.MeanAveragePrecisionExample | app/utils/evaluation.py:100-115 | MAP of the A/B example is 13/24 (output 0.5416…). |
| Qrels.AppendJudgment | app/data/parsing/func_parser.py:19-22 | Creating an empty list if needed and then appending gives the old list (or []) plus the document id. |
| Qrels.ParseQrels | app/data/parsing/func_parser.py:8-22 | The line loop returns the dictionary of the reference fold. |
| Qrels.QrelsOfJudgments | parsing/parser_qrels.py:9-23 | A query is a key iff some valid line names it. Its list is the document ids of those lines, in line order, duplicates kept. Blank lines and lines without exactly 4 fields contribute nothing, and no list is empty. |
| Qrels.QrelsOfDistinct | app/data/parsing/func_parser.py:19-20 | Each query id is a key once. |
| Qrels.QrelsOfTotal | app/data/parsing/func_parser.py:13-22 | The list lengths sum to the number of valid lines. |
| Text.NormalizeIdIdempotent | parsing/parser_docs.py:20 | `str(int(n))` is already in canonical form, and is never empty. |
| Text.ParseIntToString | parsing/parser_docs.py:20 | `int(str(n)) == n` for every integer, sign included. |
| Text.StripIdempotent | parsing/parser_docs.py:43 | Stripping a stripped line changes nothing, so the second `strip()` on a content line has no effect. |
| Text.LowerIsLowerCase | app/test/retrieval_test.py:122 | A lowercased token holds no upper-case ASCII letter. |
| Text.SplitOnPieces | tests/services/test_query_expansion.py:24 | No piece of `split(" ")` contains a space. |
| Text.JoinSplitOn | tests/services/test_query_expansion.py:24 | Joining the pieces of `split(sep)` with `sep` gives back the string. |
| CisiLines.Classify | parsing/parser_docs.py:12-43 | A line is blank iff it is all whitespace. A marker line strips to its marker, and a record start strips to a string beginning with `.I `. |
| CisiLines.ClassifyStart | parsing/parser_docs.py:17-20 | A record id is canonical and non-empty, so `if current_id:` holds exactly when a record has been started. |
| CisiLines.ClassifyContent | parsing/parser_docs.py:41-43 | A content line is the stripped line. It is non-empty, not a `.I` line and not a marker, and stripping it again changes nothing. |
| CisiFields.AppendTo | parsing/parser_docs.py:43 | Appending extends the selected field by the text, with no separator, and leaves the other fields unchanged. |
| CisiFields.ProcessLine | parsing/parser_docs.py:12-43 | One pass of the loop body is one step of the reference state machine, including its exceptions. |
| CisiFields.ParseCisiRecords | parsing/parser_docs.py:6-46 | The script's loop plus the final flush gives the reference result. |
| CisiFields.SectionRecord | parsing/parser_docs.py:29-43 | Each field of a record is that field's text from the reference per-field definition. |
| CisiFields.SectionRecordSnoc | parsing/parser_docs.py:41-43 | Each further line appends its text to the field selected before it, or changes nothing. |
| CisiFields.PreambleRun | parsing/parser_docs.py:6-43 | Before the first `.I` nothing is stored and markers only select fields. A line appended to a selected field raises, because `current_doc` is still `{}`. |
| CisiFields.RunShape | parsing/parser_docs.py:16-27 | After the first `.I` a record is always open. |
| CisiFields.RecordsOfOk | parsing/parser_docs.py:16-43 | The parse fails iff a `.I` number is not an integer, or a line before the first `.I` is appended to a selected field. |
| CisiFields.RunSection | parsing/parser_docs.py:16-43 | After `.I n` and lines without `.I`, the earlier records are stored. The open record is n, with the fields those lines fill, and the field is the last one selected. |
| CisiFields.RecordsOfSection | parsing/parser_docs.py:17-46 | Each record is stored at the next `.I` or at the end, under its id. A repeated id replaces the earlier record. |
| CisiFields.RecordsOfIds | parsing/parser_docs.py:16-46 | The stored ids are exactly the ids of the `.I` lines. |
| CisiFields.RecordsOfDistinct | parsing/parser_docs.py:18-46 | No id is stored twice. |
| CisiFields.BlankLineIgnored | app/data/parsing/parser_query.py:12-14 | Inserting a line that is blank after stripping changes nothing. |
| CisiText.ProcessLine | app/data/parsing/parser_docs.py:12-33 | One pass of the loop body is one step of the reference state machine. |
| CisiText.ParseCisiDocs | app/data/parsing/parser_docs.py:6-36 | The script's loop plus the final flush gives the reference result. |
| CisiText.SectionTextSpaced | app/data/parsing/parser_docs.py:31-33 | A document text is empty or starts with a space. |
| CisiText.RunSection | app/data/parsing/parser_docs.py:16-33 | After `.I n` and lines without `.I`, the open document is n. Its text is `" " + line` for each content line read while capture is on: no marker yet, or last marker `.T`/`.W`. Capture is off after `.X`/`.A`/`.B`. |
| CisiText.DocsOfSection | app/data/parsing/parser_docs.py:18-36 | Each document is stored at the next `.I` or at the end. A repeated id replaces the earlier one. |
| CisiText.DocsOfPreamble | app/data/parsing/parser_docs.py:16-22 | Without a `.I` line nothing is stored. Text before the first `.I` is dropped. |
| CisiText.DocsOfOk | app/data/parsing/parser_docs.py:21 | The parse fails iff some `.I` number is not an integer. |
| CisiText.DocsOfIds | app/data/parsing/parser_docs.py:16-36 | The stored ids are exactly the ids of the `.I` lines. |
| CisiText.DocsOfShape | app/data/parsing/parser_docs.py:31-36 | No id is stored twice, and every stored document is empty or starts with a space. |
| CisiText.BlankLineIgnored | app/data/parsing/parser_docs.py:12-14 | Inserting a line that is blank after stripping changes nothing. |
| CisiSections.ProcessLine | tests/services/test_query_expansion.py:20-29 | One pass of the loop body is one step of the reference state machine, including the `IndexError` of a `.I` line without a second piece. |
| CisiSections.ReadCisiSections | tests/services/test_query_expansion.py:10-63 | The loop of `read_cisi_collection`, which `read_queries` repeats line for line, gives the reference result. |
| CisiSections.RunSection | tests/services/test_query_expansion.py:20-29 | After a `.I` line and lines without one, the earlier records are stored. The open record collects the stripped non-`.W` lines, in order. |
| CisiSections.DocsOfSection | tests/services/test_query_expansion.py:20-33 | Each record is stored at the next `.I` or at the end as its pieces joined by single spaces. A repeated id replaces the earlier record. |
| CisiSections.DocsOfPreamble | tests/services/test_query_expansion.py:20-33 | Lines before the first `.I` are discarded. Without a `.I` line nothing is stored. |
| CisiSections.DocsOfOk | tests/services/test_query_expansion.py:24 | Reading fails iff some `.I` line has no second space-separated piece. |
| CisiSections.DocsOfIds | tests/services/test_query_expansion.py:20-33 | The stored ids are exactly the ids of the `.I` lines. |
| CisiSections.DocsOfDistinct | tests/services/test_query_expansion.py:23-33 | No id is stored twice. |
| CisiSections.HeaderLine | tests/services/test_query_expansion.py:20-24 | The raw line `".I " + n + "\n"` starts record n, with n taken as written. |
| CisiSections.KeptMarker | tests/services/test_query_expansion.py:26-29 | Marker lines other than `.W` (`.T`, `.A`, `.X`, …) are kept as content, stripped. |
| CisiSections.KeptBlankLine | tests/services/test_query_expansion.py:28-29 | A blank line is kept as an empty piece. |

## Left out

- HTTP routers, app wiring, the one-slot index cache, and the placeholder services and models. These are plumbing or have no logic.
- Query-vector construction and query expansion. Their functions are undefined or stubs in the repository.
- NLTK `word_tokenize`, the Porter stemmer and the stopword corpus. They are parameters (`Preprocessing.Normalizer`), so every property holds for any tokenizer, stemmer and stopword set.
- Floating-point arithmetic. Weights, scores and metrics are exact `real`s, and `math.log2` is an uninterpreted parameter. The test assertions that compare floats for exact equality are not reproduced.
- The sample weights that need IDF or augmented TF over the four test documents (for example test_retrieval_service.py:147-151 and 161-184). Their formulas are proved for every table by `Weighting.IdfWeight`, `Weighting.LogIdfWeight`, `Weighting.AugmentedNormalizedWeight` and `Weighting.BinaryIdfNormalizedWeight`.
- File reading, JSON writing and console output, including `print_inverted_file`. Parsers take a sequence of lines and return the dictionary.
- `str.lower()` is modelled on ASCII letters only. `int()` accepts an optional sign, ASCII digits and single underscores between digits, but no Unicode digits, and Python's limit on the number of digits is not modelled.
- Similarity.SortByScoreEntries: the sort is proved to be a non-increasing permutation. The stability of Python's `sorted` (equal scores keep accumulation order) is not stated.
- Evaluation.PrecisionAtKBounds: a negative k gives `0 / k`, which Python evaluates to `-0.0`. The model gives 0.
- `CisiFields.Flush` stores the record only when both an id and the record exist. Python tests the id alone. The two tests agree on every reachable state (`CisiFields.RunShape`), and the method tests the id alone, as Python does.
- The four-field and `neglect` parsers stop on the first `ValueError` and report only that an id was invalid, not which line.

## Where the code and its tests disagree

The model follows the code.

- **Augmented TF.** `calculate_tf_idf` divides by the largest count of the term over all documents (app/test/retrieval_test.py:224-226). The tests expect a division by the largest term count within the document:
  - `0.5 + 0.5·2/3` for "let" in document "4" (tests/services/test_retrieval_service.py:133-136);
  - `0.5 + 0.5·1/3` for "therefore" in document "3" (tests/services/test_retrieval_service.py:171-175).

  `Weighting.AugmentedTfWeight` states the code's formula. `WeightingExamples.AugmentedDividesByTermMaximum` shows that the two readings give different weights.
