/**
 * Text preprocessing of the retrieval engine: tokenize, optionally stem,
 * optionally drop stopwords, then lower-case every token.
 */
module Preprocessing {
  import opened Text

  /**
   * The foreign parts of the normaliser: the tokenizer (NLTK's
   * `word_tokenize`, falling back to `split()`), the Porter stemmer and the
   * English stopword list (empty when the corpus cannot be loaded).
   */
  datatype Normalizer = Normalizer(
    tokenize: string -> seq<string>,
    stem: string -> string,
    stopwords: set<string>)

  /** The tokens that are not stopwords, in their original order. */
  function WithoutStopwords(tokens: seq<string>, stopwords: set<string>): seq<string> {
    if tokens == [] then []
    else
      var kept := WithoutStopwords(tokens[..|tokens| - 1], stopwords);
      var w := tokens[|tokens| - 1];
      if w in stopwords then kept else kept + [w]
  }

  /** `remove_stopwords`: copies every token that is not a stopword. */
  method RemoveStopwords(tokens: seq<string>, stopwords: set<string>) returns (filtered: seq<string>)
    ensures filtered == WithoutStopwords(tokens, stopwords)
    ensures forall w :: w in filtered <==> w in tokens && w !in stopwords
    ensures |filtered| <= |tokens|
  {
    filtered := [];
    for i := 0 to |tokens|
      invariant filtered == WithoutStopwords(tokens[..i], stopwords)
    {
      assert tokens[..i + 1][..i] == tokens[..i];
      var w := tokens[i];
      if w !in stopwords {
        filtered := filtered + [w];
      }
    }
    assert tokens[..|tokens|] == tokens;
    WithoutStopwordsMembers(tokens, stopwords);
  }

  /** A token survives exactly when it is not a stopword; the result is never longer. */
  lemma {:induction false} WithoutStopwordsMembers(tokens: seq<string>, stopwords: set<string>)
    ensures forall w :: w in WithoutStopwords(tokens, stopwords) <==> w in tokens && w !in stopwords
    ensures |WithoutStopwords(tokens, stopwords)| <= |tokens|
  {
    if tokens != [] {
      var init := tokens[..|tokens| - 1];
      WithoutStopwordsMembers(init, stopwords);
      assert tokens == init + [tokens[|tokens| - 1]];
    }
  }

  /** Filtering distributes over concatenation, so the relative order of the kept tokens is the input's. */
  lemma {:induction false} WithoutStopwordsConcat(a: seq<string>, b: seq<string>, stopwords: set<string>)
    ensures WithoutStopwords(a + b, stopwords) == WithoutStopwords(a, stopwords) + WithoutStopwords(b, stopwords)
    decreases |b|
  {
    if b != [] {
      var b' := b[..|b| - 1];
      assert (a + b)[..|a + b| - 1] == a + b';
      WithoutStopwordsConcat(a, b', stopwords);
    } else {
      assert a + b == a;
    }
  }

  /** Nothing is dropped exactly when no token is a stopword. */
  lemma {:induction false} WithoutStopwordsKeepsAll(tokens: seq<string>, stopwords: set<string>)
    ensures WithoutStopwords(tokens, stopwords) == tokens <==> forall i :: 0 <= i < |tokens| ==> tokens[i] !in stopwords
  {
    WithoutStopwordsMembers(tokens, stopwords);
    if tokens != [] {
      var init := tokens[..|tokens| - 1];
      WithoutStopwordsKeepsAll(init, stopwords);
      WithoutStopwordsMembers(init, stopwords);
      if tokens[|tokens| - 1] in stopwords {
        assert |WithoutStopwords(tokens, stopwords)| < |tokens|;
      }
    }
  }

  /** `stem_tokens`: the stemmer applied to every token. */
  function StemTokens(tokens: seq<string>, stem: string -> string): (stemmed: seq<string>)
    ensures |stemmed| == |tokens|
    ensures forall i :: 0 <= i < |tokens| ==> stemmed[i] == stem(tokens[i])
  {
    seq(|tokens|, i requires 0 <= i < |tokens| => stem(tokens[i]))
  }

  /** The tokens as they stand before lower-casing: tokenized, stemmed if asked, filtered if asked. */
  function FilteredTokens(text: string, useStemming: bool, useStopwordRemoval: bool, n: Normalizer): seq<string> {
    var tokens := n.tokenize(text);
    var stemmed := if useStemming then StemTokens(tokens, n.stem) else tokens;
    if useStopwordRemoval then WithoutStopwords(stemmed, n.stopwords) else stemmed
  }

  function LowerAll(tokens: seq<string>): (lowered: seq<string>)
    ensures |lowered| == |tokens|
    ensures forall i :: 0 <= i < |tokens| ==> lowered[i] == Lower(tokens[i])
  {
    seq(|tokens|, i requires 0 <= i < |tokens| => Lower(tokens[i]))
  }

  /** `preprocess_text`. */
  function Preprocess(text: string, useStemming: bool, useStopwordRemoval: bool, n: Normalizer): seq<string> {
    LowerAll(FilteredTokens(text, useStemming, useStopwordRemoval, n))
  }

  method PreprocessText(text: string, useStemming: bool, useStopwordRemoval: bool, n: Normalizer)
    returns (tokens: seq<string>)
    ensures tokens == Preprocess(text, useStemming, useStopwordRemoval, n)
  {
    tokens := n.tokenize(text);
    if useStemming {
      tokens := StemTokens(tokens, n.stem);
    }
    if useStopwordRemoval {
      tokens := RemoveStopwords(tokens, n.stopwords);
    }
    tokens := LowerAll(tokens);
  }

  /**
   * Every output token is lower case, and the output is the filtered token
   * list position by position: lower-casing comes after filtering.
   */
  lemma PreprocessIsLowerCase(text: string, useStemming: bool, useStopwordRemoval: bool, n: Normalizer)
    ensures var out := Preprocess(text, useStemming, useStopwordRemoval, n);
      && |out| == |FilteredTokens(text, useStemming, useStopwordRemoval, n)|
      && forall i :: 0 <= i < |out| ==> IsLowerCase(out[i])
  {
    var kept := FilteredTokens(text, useStemming, useStopwordRemoval, n);
    forall i | 0 <= i < |kept| ensures IsLowerCase(Lower(kept[i])) {
      LowerIsLowerCase(kept[i]);
    }
  }

  /**
   * With stopword removal on, no stopword reaches the output as long as the
   * tokens reaching the filter are already lower case.
   */
  lemma NoStopwordsWhenFilteredTokensAreLowerCase(text: string, useStemming: bool, n: Normalizer)
    requires forall w :: w in FilteredTokens(text, useStemming, false, n) ==> IsLowerCase(w)
    ensures forall w :: w in Preprocess(text, useStemming, true, n) ==> w !in n.stopwords
  {
    var stemmed := FilteredTokens(text, useStemming, false, n);
    var kept := FilteredTokens(text, useStemming, true, n);
    WithoutStopwordsMembers(stemmed, n.stopwords);
    forall i | 0 <= i < |kept| ensures Lower(kept[i]) == kept[i] {
      assert kept[i] in kept;
    }
  }

  /**
   * Filtering happens before lower-casing, so a capitalised stopword passes
   * the filter and comes out as the stopword itself.
   */
  lemma CapitalisedStopwordSurvives()
    ensures var n := Normalizer((text: string) => ["To", "be"], (w: string) => w, {"to", "be"});
      Preprocess("To be", false, true, n) == ["to"]
  {
    var n := Normalizer((text: string) => ["To", "be"], (w: string) => w, {"to", "be"});
    assert n.tokenize("To be") == ["To", "be"];
    assert ["To", "be"][..1] == ["To"];
    assert WithoutStopwords(["To", "be"], n.stopwords) == ["To"];
    assert Lower("To") == "to";
  }
}
