/**
 * The NaiveBayes class: a multinomial Naive Bayes text classifier with add-one (Laplace)
 * smoothing. Its attributes are plain fields that `learn` updates in place; the tokenizer is a
 * function the host supplies. Logarithms are a parameter `ln` of the scoring operations, and
 * all other arithmetic is exact.
 */
module Classifier {
  import opened Wrappers
  import opened Counting
  import opened Ranking
  import opened Json
  import opened Model
  import opened Codec

  /** Bounds of a ratio of counts, used for the probabilities below. */
  lemma RatioBounds(a: nat, b: nat)
    requires 0 < a && 0 < b
    ensures 0.0 < a as real / b as real
    ensures a <= b ==> a as real / b as real <= 1.0
    ensures a == b ==> a as real / b as real == 1.0
  {
  }

  lemma SumOfRatios(a: nat, b: nat, d: nat)
    requires d > 0
    ensures a as real / d as real + b as real / d as real == (a + b) as real / d as real
  {
  }

  class NaiveBayes {
    var options: Value
    var tokenizer: string -> seq<string>
    var vocabulary: seq<string>
    var totalDocuments: nat
    var docCount: map<string, nat>
    var wordCount: map<string, nat>
    var wordFrequencyCount: map<string, map<string, nat>>
    var categories: seq<string>

    /** The seven persisted attributes, as `to_json` collects them with getattr. */
    function State(): ModelState
      reads this
    {
      ModelState(categories, docCount, totalDocuments, vocabulary, wordCount, wordFrequencyCount, options)
    }

    /** The invariant that construction and every `learn` call keep. */
    ghost predicate Valid()
      reads this
    {
      Consistent(State())
    }

    /** `__init__`: options None stands for an empty dictionary; any other options must be a dictionary. */
    constructor(options: Value, tokenizer: string -> seq<string>)
      requires options.JObject? || options.JNull?
      ensures State() == Empty(if options.JNull? then JObject(map[]) else options)
      ensures this.tokenizer == tokenizer
      ensures Valid()
    {
      this.options := if options.JNull? then JObject(map[]) else options;
      this.tokenizer := tokenizer;
      vocabulary := [];
      totalDocuments := 0;
      docCount := map[];
      wordCount := map[];
      wordFrequencyCount := map[];
      categories := [];
    }

    /** Registers a category seen for the first time: zero counts, appended to `categories`. */
    method InitializeCategory(categoryName: string)
      modifies this
      ensures State() == Register(old(State()), categoryName)
      ensures tokenizer == old(tokenizer)
    {
      if categoryName !in categories {
        docCount := docCount[categoryName := 0];
        wordCount := wordCount[categoryName := 0];
        wordFrequencyCount := wordFrequencyCount[categoryName := map[]];
        categories := categories + [categoryName];
      }
    }

    /**
     * Counts the tokens: `table` maps each token to its number of occurrences, and `order`
     * lists the keys in the order the dictionary yields them, that of first occurrence.
     */
    static method FrequencyTable(tokens: seq<string>) returns (order: seq<string>, table: map<string, nat>)
      ensures order == Distinct(tokens) && table == Frequencies(tokens)
      ensures forall t :: t in order <==> t in table
    {
      order, table := [], map[];
      for i := 0 to |tokens|
        invariant order == Distinct(tokens[..i])
        invariant table == Frequencies(tokens[..i])
      {
        var token := tokens[i];
        ghost var seen := tokens[..i];
        assert tokens[..i + 1] == seen + [token];
        FrequenciesSpec(seen);
        FrequenciesSnoc(seen, token);
        DistinctSnoc(seen, token);
        if token !in table {
          order := order + [token];
        }
        table := table[token := Get(table, token) + 1];
      }
      assert tokens[..|tokens|] == tokens;
      FrequenciesSpec(tokens);
      DistinctSpec(tokens);
    }

    /**
     * Trains on one labelled text: the category is registered if new, it and the total get one
     * more document, and the text's token counts are folded into the category's counts and the
     * vocabulary. The new statistics are Learned(old statistics, tokenizer(text), category).
     */
    method Learn(text: string, category: string)
      requires CanLearn(State(), category)
      modifies this
      ensures State() == Learned(old(State()), tokenizer(text), category)
      ensures tokenizer == old(tokenizer)
      ensures old(Valid()) ==> Valid()
    {
      ghost var start := State();
      RegisterThenCount(start, category);
      InitializeCategory(category);
      docCount := docCount[category := docCount[category] + 1];
      totalDocuments := totalDocuments + 1;
      ghost var counted := State();
      assert counted == Counted(start, category);
      var tokens := tokenizer(text);
      var order, table := FrequencyTable(tokens);
      CountTokens(category, order, table);
      LearnIsTokenLoop(start, tokens, category);
      assert State() == Learned(start, tokens, category);
      if Consistent(start) {
        LearnPreservesConsistency(start, tokens, category);
      }
    }

    /**
     * The token loop of `learn`: for each key of the frequency table, in its order, the token is
     * counted for the category.
     */
    method CountTokens(category: string, order: seq<string>, table: map<string, nat>)
      requires category in wordCount && category in wordFrequencyCount
      requires forall t :: t in order <==> t in table
      modifies this
      ensures State() == AddTokens(old(State()), category, order, table)
      ensures tokenizer == old(tokenizer)
    {
      ghost var start := State();
      for i := 0 to |order|
        invariant State() == AddTokens(start, category, order[..i], table)
        invariant tokenizer == old(tokenizer)
      {
        var token := order[i];
        assert order[..i + 1] == order[..i] + [token];
        AddTokensSnoc(start, category, order[..i], token, table);
        CountToken(category, token, table[token]);
      }
      assert order[..|order|] == order;
    }

    /**
     * The body of the token loop of `learn`: a new token joins the vocabulary, and its frequency in
     * the text is added to the category's count of it and to the category's word count.
     */
    method CountToken(category: string, token: string, frequencyInText: nat)
      requires category in wordCount && category in wordFrequencyCount
      modifies this
      ensures State() == AddToken(old(State()), category, token, frequencyInText)
      ensures tokenizer == old(tokenizer)
    {
      ghost var expected := AddToken(State(), category, token, frequencyInText);
      if token !in vocabulary {
        vocabulary := vocabulary + [token];
      }
      var counts := wordFrequencyCount[category];
      if token !in counts {
        counts := counts[token := frequencyInText];
      } else {
        counts := counts[token := counts[token] + frequencyInText];
      }
      assert counts == expected.wordFrequencyCount[category];
      wordFrequencyCount := wordFrequencyCount[category := counts];
      wordCount := wordCount[category := wordCount[category] + frequencyInText];
    }

    /**
     * `token_probability`: (frequency of the token in the category + 1) / (words of the category
     * + vocabulary size). Python divides by zero when the category has no words and the vocabulary
     * is empty, hence the last requires. The value is always positive and, under the invariant, at most 1.
     */
    function TokenProbability(token: string, category: string): (p: real)
      reads this
      requires category in wordFrequencyCount && category in wordCount
      requires wordCount[category] + |vocabulary| > 0
      ensures 0.0 < p
      ensures Valid() && category in categories ==> p <= 1.0
    {
      var f := Get(wordFrequencyCount[category], token);
      var d := wordCount[category] + |vocabulary|;
      assert Valid() && category in categories ==> f + 1 <= d by {
        if Valid() && category in categories {
          FrequencyWithinWordCount(State(), category, token);
        }
      }
      RatioBounds(f + 1, d);
      (f + 1) as real / d as real
    }

    /** The sum of the smoothed probabilities of the tokens in ts. */
    ghost function Mass(ts: seq<string>, category: string): real
      reads this
      requires category in wordFrequencyCount && category in wordCount
      requires wordCount[category] + |vocabulary| > 0
    {
      if ts == [] then 0.0
      else Mass(ts[..|ts| - 1], category) + TokenProbability(ts[|ts| - 1], category)
    }

    lemma {:induction false} MassIsRatio(ts: seq<string>, category: string)
      requires category in wordFrequencyCount && category in wordCount
      requires wordCount[category] + |vocabulary| > 0
      ensures Mass(ts, category)
              == (SumOver(ts, wordFrequencyCount[category]) + |ts|) as real / (wordCount[category] + |vocabulary|) as real
    {
      if ts != [] {
        var p, t := ts[..|ts| - 1], ts[|ts| - 1];
        var counts, d := wordFrequencyCount[category], wordCount[category] + |vocabulary|;
        MassIsRatio(p, category);
        assert SumOver(ts, counts) + |ts| == (SumOver(p, counts) + |p|) + (Get(counts, t) + 1);
        SumOfRatios(SumOver(p, counts) + |p|, Get(counts, t) + 1, d);
      }
    }

    /** Add-one smoothing gives a distribution: over the vocabulary, a category's token probabilities add up to 1. */
    lemma ProbabilitiesSumToOne(category: string)
      requires Valid() && category in categories && vocabulary != []
      ensures Mass(vocabulary, category) == 1.0
    {
      FrequencyWithinWordCount(State(), category, "");
      MassIsRatio(vocabulary, category);
      RatioBounds(wordCount[category] + |vocabulary|, wordCount[category] + |vocabulary|);
    }

    // -------------------------------------------------------------------
    // Scoring

    /**
     * What `probabilities` needs of category c in order not to raise: its entries exist (KeyError),
     * the total is not zero (ZeroDivisionError), its document count is positive (math.log domain error),
     * and for a text with tokens the smoothing denominator is not zero (ZeroDivisionError). The entries
     * of word_count and word_frequency_count are asked for also when the text has no tokens, where
     * Python does not read them.
     */
    predicate CanScore(c: string, tokens: seq<string>)
      reads this
    {
      && c in docCount && c in wordCount && c in wordFrequencyCount
      && docCount[c] > 0 && totalDocuments > 0
      && (tokens != [] ==> wordCount[c] + |vocabulary| > 0)
    }

    predicate Scorable(tokens: seq<string>)
      reads this
    {
      forall c :: c in categories ==> CanScore(c, tokens)
    }

    /**
     * On a classifier that the invariant holds for, scoring fails only in one case: some category
     * exists, the text has tokens and the vocabulary is empty.
     */
    lemma ScorableWhenConsistent(tokens: seq<string>)
      requires Valid()
      ensures Scorable(tokens) <==> (categories == [] || tokens == [] || vocabulary != [])
    {
      if categories == [] || tokens == [] || vocabulary != [] {
        forall c | c in categories ensures CanScore(c, tokens) {
          SumOverAtLeast(categories, docCount, c);
        }
      } else {
        assert wordCount[categories[0]] == SumOver(vocabulary, wordFrequencyCount[categories[0]]) == 0;
        assert !CanScore(categories[0], tokens);
      }
    }

    /** The sum of f * ln(token_probability(t, c)) over the keys t of the frequency table, f being t's count. */
    function Likelihood(keys: seq<string>, table: map<string, nat>, c: string, ln: real -> real): real
      reads this
      requires c in wordFrequencyCount && c in wordCount
      requires keys != [] ==> wordCount[c] + |vocabulary| > 0
      requires forall k :: 0 <= k < |keys| ==> keys[k] in table
    {
      if keys == [] then 0.0
      else
        var t := keys[|keys| - 1];
        Likelihood(keys[..|keys| - 1], table, c, ln) + table[t] as real * ln(TokenProbability(t, c))
    }

    lemma LikelihoodSnoc(keys: seq<string>, t: string, table: map<string, nat>, c: string, ln: real -> real)
      requires c in wordFrequencyCount && c in wordCount && wordCount[c] + |vocabulary| > 0
      requires forall k :: 0 <= k < |keys| ==> keys[k] in table
      requires t in table
      ensures Likelihood(keys + [t], table, c, ln)
              == Likelihood(keys, table, c, ln) + table[t] as real * ln(TokenProbability(t, c))
    {
      assert (keys + [t])[..|keys|] == keys;
    }

    /** The score `probabilities` gives category c: ln of its prior plus the log-likelihood of the tokens. */
    function LogPosterior(tokens: seq<string>, c: string, ln: real -> real): real
      reads this
      requires CanScore(c, tokens)
    {
      DistinctSpec(tokens);
      FrequenciesSpec(tokens);
      ln(docCount[c] as real / totalDocuments as real) + Likelihood(Distinct(tokens), Frequencies(tokens), c, ln)
    }

    /** The list `probabilities` builds before sorting: one pair per category, in the order of cs. */
    function Scored(cs: seq<string>, tokens: seq<string>, ln: real -> real): (r: seq<Entry>)
      reads this
      requires forall k :: 0 <= k < |cs| ==> CanScore(cs[k], tokens)
      ensures |r| == |cs|
      ensures forall k :: 0 <= k < |cs| ==> r[k] == (cs[k], LogPosterior(tokens, cs[k], ln))
    {
      if cs == [] then []
      else
        var c := cs[|cs| - 1];
        Scored(cs[..|cs| - 1], tokens, ln) + [(c, LogPosterior(tokens, c, ln))]
    }

    lemma ScoredSnoc(cs: seq<string>, c: string, tokens: seq<string>, ln: real -> real)
      requires forall k :: 0 <= k < |cs| ==> CanScore(cs[k], tokens)
      requires CanScore(c, tokens)
      ensures Scored(cs + [c], tokens, ln) == Scored(cs, tokens, ln) + [(c, LogPosterior(tokens, c, ln))]
    {
      assert (cs + [c])[..|cs|] == cs;
    }

    /**
     * The body of the outer loop of `probabilities` for one category: ln of its prior, plus
     * frequency * ln(token_probability) for each token of the text's frequency table.
     */
    method CategoryLogProbability(category: string, order: seq<string>, table: map<string, nat>,
                                  ln: real -> real) returns (logProbability: real)
      requires category in docCount && category in wordCount && category in wordFrequencyCount
      requires docCount[category] > 0 && totalDocuments > 0
      requires order != [] ==> wordCount[category] + |vocabulary| > 0
      requires forall k :: 0 <= k < |order| ==> order[k] in table
      ensures logProbability == ln(docCount[category] as real / totalDocuments as real) + Likelihood(order, table, category, ln)
    {
      var categoryProbability := docCount[category] as real / totalDocuments as real;
      logProbability := ln(categoryProbability);
      for j := 0 to |order|
        invariant logProbability == ln(categoryProbability) + Likelihood(order[..j], table, category, ln)
      {
        var frequencyInText := table[order[j]];
        var tokenProbability := TokenProbability(order[j], category);
        assert order[..j + 1] == order[..j] + [order[j]];
        LikelihoodSnoc(order[..j], order[j], table, category, ln);
        logProbability := logProbability + frequencyInText as real * ln(tokenProbability);
      }
      assert order[..|order|] == order;
    }

    /** The score of c, read off the frequency table of the tokens. */
    lemma PosteriorOfTable(tokens: seq<string>, c: string, order: seq<string>, table: map<string, nat>, ln: real -> real)
      requires CanScore(c, tokens)
      requires order == Distinct(tokens) && table == Frequencies(tokens)
      ensures order != [] ==> wordCount[c] + |vocabulary| > 0
      ensures forall k :: 0 <= k < |order| ==> order[k] in table
      ensures LogPosterior(tokens, c, ln)
              == ln(docCount[c] as real / totalDocuments as real) + Likelihood(order, table, c, ln)
    {
      DistinctSpec(tokens);
      FrequenciesSpec(tokens);
    }

    /** One more category scored: the pair the outer loop of `probabilities` appends extends Scored. */
    lemma ScoreNext(tokens: seq<string>, i: nat, ln: real -> real, result: seq<Entry>, logProbability: real)
      requires Scorable(tokens) && i < |categories|
      requires result == Scored(categories[..i], tokens, ln)
      requires logProbability == LogPosterior(tokens, categories[i], ln)
      ensures result + [(categories[i], logProbability)] == Scored(categories[..i + 1], tokens, ln)
    {
      assert categories[..i + 1] == categories[..i] + [categories[i]];
      ScoredSnoc(categories[..i], categories[i], tokens, ln);
    }

    /**
     * `probabilities`: every category paired with its score, sorted by score, highest first,
     * categories of equal score in the order they were registered. Empty when no category exists.
     */
    method Probabilities(text: string, ln: real -> real) returns (ranked: seq<Entry>)
      requires Scorable(tokenizer(text))
      ensures ranked == Rank(Scored(categories, tokenizer(text), ln))
    {
      var tokens := tokenizer(text);
      var order, table := FrequencyTable(tokens);
      var result: seq<Entry> := [];
      for i := 0 to |categories|
        invariant result == Scored(categories[..i], tokens, ln)
      {
        var category := categories[i];
        assert CanScore(category, tokens);
        PosteriorOfTable(tokens, category, order, table, ln);
        var logProbability := CategoryLogProbability(category, order, table, ln);
        ScoreNext(tokens, i, ln, result, logProbability);
        result := result + [(category, logProbability)];
      }
      assert categories[..|categories|] == categories;
      ranked := Rank(result);
    }

    /**
     * What `probabilities` returns: every category once, each with its score, sorted by score,
     * highest first, and categories of equal score in the order they were registered.
     */
    lemma RankedScores(tokens: seq<string>, ln: real -> real)
      requires Scorable(tokens)
      ensures |Rank(Scored(categories, tokens, ln))| == |categories|
      ensures multiset(Labels(Rank(Scored(categories, tokens, ln)))) == multiset(categories)
      ensures forall e :: e in Rank(Scored(categories, tokens, ln)) ==>
                e.0 in categories && e.1 == LogPosterior(tokens, e.0, ln)
      ensures Descending(Rank(Scored(categories, tokens, ln)))
      ensures forall v :: Ties(Rank(Scored(categories, tokens, ln)), v) == Ties(Scored(categories, tokens, ln), v)
    {
      var scored := Scored(categories, tokens, ln);
      RankSpec(scored);
      assert Labels(scored) == categories;
      forall e | e in Rank(scored) ensures e.0 in categories && e.1 == LogPosterior(tokens, e.0, ln) {
        assert e in multiset(scored);
        var i :| 0 <= i < |scored| && scored[i] == e;
      }
    }

    /** Category m is the first, in registration order, of those with the highest score. */
    ghost predicate FirstHighest(tokens: seq<string>, ln: real -> real, m: nat)
      reads this
      requires Scorable(tokens)
    {
      && m < |categories|
      && (forall j :: 0 <= j < |categories| ==>
            LogPosterior(tokens, categories[j], ln) <= LogPosterior(tokens, categories[m], ln))
      && (forall j :: 0 <= j < m ==>
            LogPosterior(tokens, categories[j], ln) < LogPosterior(tokens, categories[m], ln))
    }

    /**
     * `categorize`: the category at the head of `probabilities`, whichever the flag says.
     * On a classifier without categories Python's `[0]` raises IndexError: None here.
     */
    method Categorize(text: string, probability: bool, ln: real -> real) returns (chosen: Option<string>)
      requires Scorable(tokenizer(text))
      ensures chosen.None? <==> categories == []
      ensures categories != [] ==> chosen == Some(Rank(Scored(categories, tokenizer(text), ln))[0].0)
      ensures chosen.Some? ==> exists m: nat :: FirstHighest(tokenizer(text), ln, m) && chosen.value == categories[m]
    {
      var ranked := Probabilities(text, ln);
      if ranked == [] {
        return None;
      }
      if probability {
        chosen := Some(ranked[0].0);
      } else {
        chosen := Some(ranked[0].0);
      }
      RankedHeadIsFirstHighest(tokenizer(text), ln);
    }

    /** The head of the ranking is the first category with the highest score. */
    lemma RankedHeadIsFirstHighest(tokens: seq<string>, ln: real -> real)
      requires Scorable(tokens) && categories != []
      ensures exists m: nat :: FirstHighest(tokens, ln, m) && Rank(Scored(categories, tokens, ln))[0].0 == categories[m]
    {
      var u := Scored(categories, tokens, ln);
      RankHead(u);
      var m :| 0 <= m < |u| && Rank(u)[0] == u[m]
               && (forall j :: 0 <= j < |u| ==> u[j].1 <= u[m].1)
               && (forall j :: 0 <= j < m ==> u[j].1 < u[m].1);
      assert FirstHighest(tokens, ln, m);
    }

    // -------------------------------------------------------------------
    // Persistence

    /** `to_json` without the text step: the seven attributes under their STATE_KEYS names. */
    function ToJson(): (doc: Document)
      reads this
      ensures doc.Keys == set k | k in StateKeys
      ensures (options.JObject? || options.JNull?) ==> Decode(doc) == Success(State())
    {
      EncodeKeys(State());
      DecodeEncode(State());
      Encode(State())
    }

    /** The `setattr` calls of `from_json`: one per key of STATE_KEYS, each attribute taken from s. */
    method SetAttributes(s: ModelState)
      modifies this
      ensures State() == s && tokenizer == old(tokenizer)
    {
      categories := s.categories;
      docCount := s.docCount;
      totalDocuments := s.totalDocuments;
      vocabulary := s.vocabulary;
      wordCount := s.wordCount;
      wordFrequencyCount := s.wordFrequencyCount;
      options := s.options;
    }

    /**
     * `from_json` without the text step: builds a classifier with the document's options, fails
     * on the first missing key of STATE_KEYS, and otherwise takes every attribute from the document.
     * The tokenizer is the one the host supplies.
     */
    static method FromJson(doc: Document, tokenizer: string -> seq<string>) returns (r: Result<NaiveBayes, DecodeError>)
      ensures r.Failure? <==> Decode(doc).Failure?
      ensures r.Failure? ==> r.error == Decode(doc).error
      ensures r.Success? ==> fresh(r.value) && r.value.State() == Decode(doc).value && r.value.tokenizer == tokenizer
    {
      var options := InitOptions(doc);
      if !(options.JObject? || options.JNull?) {
        return Failure(OptionsNotMapping);
      }
      var classifier := new NaiveBayes(options, tokenizer);
      for i := 0 to |StateKeys|
        invariant forall j :: 0 <= j < i ==> StateKeys[j] in doc
      {
        var key := StateKeys[i];
        if key !in doc {
          DecodeReportsFirstMissing(doc, i);
          return Failure(MissingProperty(key));
        }
      }
      DecodeComplete(doc);
      var fields := DecodeFields(doc);
      if fields.Failure? {
        return Failure(fields.error);
      }
      classifier.SetAttributes(fields.value);
      r := Success(classifier);
    }
  }
}
