/**
 * The statistics of a NaiveBayes classifier as a value, the invariant that training keeps,
 * and the effect of one `learn` call on them.
 */
module Model {
  import opened Counting
  import opened Json

  /** The seven attributes listed in STATE_KEYS, in that order: everything a classifier persists. */
  datatype ModelState = ModelState(
    categories: seq<string>,
    docCount: map<string, nat>,
    totalDocuments: nat,
    vocabulary: seq<string>,
    wordCount: map<string, nat>,
    wordFrequencyCount: map<string, map<string, nat>>,
    options: Value)

  /** The statistics of a classifier fresh from `__init__`. */
  function Empty(options: Value): (s: ModelState)
    ensures Consistent(s)
    ensures s.categories == [] && s.vocabulary == [] && s.totalDocuments == 0 && s.options == options
  {
    ModelState([], map[], 0, [], map[], map[], options)
  }

  /** Categories are listed once each, and exactly they have entries in the three count dictionaries. */
  ghost predicate CategoriesRegistered(s: ModelState) {
    && NoDuplicates(s.categories)
    && (forall c :: c in s.docCount <==> c in s.categories)
    && (forall c :: c in s.wordCount <==> c in s.categories)
    && (forall c :: c in s.wordFrequencyCount <==> c in s.categories)
  }

  /**
   * total_documents is the sum of the document counts (summed along `categories`, which lists
   * each key of doc_count once), and every registered category has at least one document.
   */
  ghost predicate DocumentsCounted(s: ModelState) {
    TotalIsSum(s.categories, s.docCount, s.totalDocuments)
  }

  ghost predicate TotalIsSum(cs: seq<string>, m: map<string, nat>, total: nat) {
    && total == SumOver(cs, m)
    && (forall c :: c in cs ==> c in m && m[c] >= 1)
  }

  /**
   * The vocabulary lists each token once; every frequency key is in the vocabulary with a count
   * of at least 1; and word_count[c] is the sum of word_frequency_count[c] (summed along the vocabulary).
   */
  ghost predicate WordsCounted(s: ModelState) {
    && NoDuplicates(s.vocabulary)
    && (forall c, t :: c in s.wordFrequencyCount && t in s.wordFrequencyCount[c] ==>
          t in s.vocabulary && s.wordFrequencyCount[c][t] >= 1)
    && (forall c :: c in s.categories ==>
          c in s.wordCount && c in s.wordFrequencyCount &&
          s.wordCount[c] == SumOver(s.vocabulary, s.wordFrequencyCount[c]))
  }

  /** The invariant of the statistics that every sequence of `learn` calls keeps. */
  ghost predicate Consistent(s: ModelState) {
    CategoriesRegistered(s) && DocumentsCounted(s) && WordsCounted(s)
  }

  /**
   * A registered category has its three entries. Python's `learn` reads doc_count[c] always, but
   * word_count[c] and word_frequency_count[c] only for a text with tokens, so this asks for more than
   * the absence of a KeyError; every state that satisfies the invariant meets it.
   */
  predicate CanLearn(s: ModelState, c: string) {
    c in s.categories ==> c in s.docCount && c in s.wordCount && c in s.wordFrequencyCount
  }

  /** `initialize_category(c)`: a category seen for the first time gets zero counts and goes to the end of the list. */
  function Register(s: ModelState, c: string): ModelState {
    if c in s.categories then s
    else s.(categories := s.categories + [c],
            docCount := s.docCount[c := 0],
            wordCount := s.wordCount[c := 0],
            wordFrequencyCount := s.wordFrequencyCount[c := map[]])
  }

  /** The statistics after the steps of `learn` before its token loop: c registered, one more document for c and in total. */
  function Counted(s: ModelState, c: string): (r: ModelState)
    requires CanLearn(s, c)
    ensures c in r.wordCount && c in r.wordFrequencyCount
  {
    var known := c in s.categories;
    ModelState(
      if known then s.categories else s.categories + [c],
      s.docCount[c := (if known then s.docCount[c] else 0) + 1],
      s.totalDocuments + 1,
      s.vocabulary,
      if known then s.wordCount else s.wordCount[c := 0],
      if known then s.wordFrequencyCount else s.wordFrequencyCount[c := map[]],
      s.options)
  }

  /**
   * The statistics after `learn` of a text whose tokens are `tokens`, labelled c: one more document
   * for c, the unseen tokens appended to the vocabulary in order of first occurrence, and the
   * token counts of the text added to c's counts.
   */
  function Learned(s: ModelState, tokens: seq<string>, c: string): ModelState
    requires CanLearn(s, c)
  {
    var b := Counted(s, c);
    b.(vocabulary := b.vocabulary + Unseen(b.vocabulary, Distinct(tokens)),
       wordCount := b.wordCount[c := b.wordCount[c] + |tokens|],
       wordFrequencyCount := b.wordFrequencyCount[c := Merge(b.wordFrequencyCount[c], Frequencies(tokens))])
  }

  // ---------------------------------------------------------------------
  // The token loop of learn, one token at a time

  /** One pass of the token loop of `learn`: token t, occurring f times in the text, counted for category c. */
  function AddToken(s: ModelState, c: string, t: string, f: nat): (r: ModelState)
    requires c in s.wordCount && c in s.wordFrequencyCount
    ensures c in r.wordCount && c in r.wordFrequencyCount
  {
    var counts := s.wordFrequencyCount[c];
    s.(vocabulary := if t in s.vocabulary then s.vocabulary else s.vocabulary + [t],
       wordFrequencyCount := s.wordFrequencyCount[c := counts[t := Get(counts, t) + f]],
       wordCount := s.wordCount[c := s.wordCount[c] + f])
  }

  /** The token loop of `learn` run over keys, each token with its count in table. */
  function AddTokens(s: ModelState, c: string, keys: seq<string>, table: map<string, nat>): (r: ModelState)
    requires c in s.wordCount && c in s.wordFrequencyCount
    ensures c in r.wordCount && c in r.wordFrequencyCount
  {
    if keys == [] then s
    else
      var t := keys[|keys| - 1];
      AddToken(AddTokens(s, c, keys[..|keys| - 1], table), c, t, Get(table, t))
  }

  lemma AddTokensSnoc(s: ModelState, c: string, keys: seq<string>, t: string, table: map<string, nat>)
    requires c in s.wordCount && c in s.wordFrequencyCount
    ensures AddTokens(s, c, keys + [t], table) == AddToken(AddTokens(s, c, keys, table), c, t, Get(table, t))
  {
    assert (keys + [t])[..|keys|] == keys;
  }

  /** The token loop leaves the categories, the document counts and the options alone. */
  lemma {:induction false} AddTokensKeepsDocuments(s: ModelState, c: string, keys: seq<string>, table: map<string, nat>)
    requires c in s.wordCount && c in s.wordFrequencyCount
    ensures AddTokens(s, c, keys, table).categories == s.categories
    ensures AddTokens(s, c, keys, table).docCount == s.docCount
    ensures AddTokens(s, c, keys, table).totalDocuments == s.totalDocuments
    ensures AddTokens(s, c, keys, table).options == s.options
  {
    if keys != [] {
      AddTokensKeepsDocuments(s, c, keys[..|keys| - 1], table);
    }
  }

  /** Over keys without repetitions, the loop appends to the vocabulary exactly the keys missing from it. */
  lemma {:induction false} AddTokensVocabulary(s: ModelState, c: string, keys: seq<string>, table: map<string, nat>)
    requires c in s.wordCount && c in s.wordFrequencyCount
    requires NoDuplicates(keys)
    ensures AddTokens(s, c, keys, table).vocabulary == s.vocabulary + Unseen(s.vocabulary, keys)
  {
    if keys != [] {
      var p, x := keys[..|keys| - 1], keys[|keys| - 1];
      assert keys == p + [x];
      assert NoDuplicates(p);
      assert x !in p;
      AddTokensVocabulary(s, c, p, table);
      UnseenSpec(s.vocabulary, p);
    }
  }

  /** The loop adds the keys' counts to c's word count and changes no other word count. */
  lemma {:induction false} AddTokensWordCount(s: ModelState, c: string, keys: seq<string>, table: map<string, nat>)
    requires c in s.wordCount && c in s.wordFrequencyCount
    ensures AddTokens(s, c, keys, table).wordCount == s.wordCount[c := s.wordCount[c] + SumOver(keys, table)]
  {
    if keys != [] {
      AddTokensWordCount(s, c, keys[..|keys| - 1], table);
    }
  }

  /**
   * Over keys without repetitions, the loop adds each key's count to c's frequency count of that key,
   * and changes no other category's frequency counts.
   */
  lemma {:induction false} AddTokensFrequencies(s: ModelState, c: string, keys: seq<string>, table: map<string, nat>)
    requires c in s.wordCount && c in s.wordFrequencyCount
    requires NoDuplicates(keys)
    ensures AddTokens(s, c, keys, table).wordFrequencyCount - {c} == s.wordFrequencyCount - {c}
    ensures forall t :: t in AddTokens(s, c, keys, table).wordFrequencyCount[c] <==> t in s.wordFrequencyCount[c] || t in keys
    ensures forall t :: Get(AddTokens(s, c, keys, table).wordFrequencyCount[c], t)
                        == Get(s.wordFrequencyCount[c], t) + (if t in keys then Get(table, t) else 0)
  {
    if keys != [] {
      var p, x := keys[..|keys| - 1], keys[|keys| - 1];
      assert keys == p + [x];
      assert NoDuplicates(p);
      assert x !in p;
      AddTokensFrequencies(s, c, p, table);
      var r := AddTokens(s, c, p, table);
      assert AddTokens(s, c, keys, table).wordFrequencyCount - {c} == r.wordFrequencyCount - {c};
    }
  }

  lemma TokenLoopFrequencies(s: ModelState, tokens: seq<string>, c: string)
    requires CanLearn(s, c)
    ensures AddTokens(Counted(s, c), c, Distinct(tokens), Frequencies(tokens)).wordFrequencyCount
            == Learned(s, tokens, c).wordFrequencyCount
  {
    var b := Register(s, c);
    var keys, table := Distinct(tokens), Frequencies(tokens);
    DistinctSpec(tokens);
    FrequenciesSpec(tokens);
    var r := AddTokens(Counted(s, c), c, keys, table);
    AddTokensFrequencies(Counted(s, c), c, keys, table);
    MergeByKeys(b.wordFrequencyCount[c], table, r.wordFrequencyCount[c], keys);
    UpdateOfOthers(r.wordFrequencyCount, b.wordFrequencyCount, c);
  }

  lemma TokenLoopVocabulary(s: ModelState, tokens: seq<string>, c: string)
    requires CanLearn(s, c)
    ensures AddTokens(Counted(s, c), c, Distinct(tokens), Frequencies(tokens)).vocabulary
            == Learned(s, tokens, c).vocabulary
  {
    DistinctSpec(tokens);
    AddTokensVocabulary(Counted(s, c), c, Distinct(tokens), Frequencies(tokens));
  }

  lemma TokenLoopWordCount(s: ModelState, tokens: seq<string>, c: string)
    requires CanLearn(s, c)
    ensures AddTokens(Counted(s, c), c, Distinct(tokens), Frequencies(tokens)).wordCount
            == Learned(s, tokens, c).wordCount
  {
    AddTokensWordCount(Counted(s, c), c, Distinct(tokens), Frequencies(tokens));
    SumOverDistinctFrequencies(tokens);
    var b := Register(s, c);
    assert Counted(s, c).wordCount == b.wordCount;
  }

  /** Run over the text's frequency table after the document counts are bumped, the token loop yields Learned. */
  lemma LearnIsTokenLoop(s: ModelState, tokens: seq<string>, c: string)
    requires CanLearn(s, c)
    ensures AddTokens(Counted(s, c), c, Distinct(tokens), Frequencies(tokens)) == Learned(s, tokens, c)
  {
    AddTokensKeepsDocuments(Counted(s, c), c, Distinct(tokens), Frequencies(tokens));
    TokenLoopVocabulary(s, tokens, c);
    TokenLoopWordCount(s, tokens, c);
    TokenLoopFrequencies(s, tokens, c);
  }

  // ---------------------------------------------------------------------
  // What one learn call does

  /**
   * learn adds exactly one document to c and to the total (also for a text without tokens),
   * adds each token's number of occurrences to c's frequency counts and the number of tokens
   * to c's word count, appends c to the categories if it is new, and changes no other category.
   */
  lemma LearnUpdatesCounts(s: ModelState, tokens: seq<string>, c: string)
    requires CanLearn(s, c)
    ensures Learned(s, tokens, c).categories == if c in s.categories then s.categories else s.categories + [c]
    ensures Learned(s, tokens, c).totalDocuments == s.totalDocuments + 1
    ensures Learned(s, tokens, c).docCount[c] == (if c in s.categories then s.docCount[c] else 0) + 1
    ensures Learned(s, tokens, c).wordCount[c] == (if c in s.categories then s.wordCount[c] else 0) + |tokens|
    ensures forall t :: Get(Learned(s, tokens, c).wordFrequencyCount[c], t)
                        == (if c in s.categories then Get(s.wordFrequencyCount[c], t) else 0) + Occurrences(tokens, t)
    ensures Learned(s, tokens, c).options == s.options
  {
    FrequenciesSpec(tokens);
    GetMerge(Register(s, c).wordFrequencyCount[c], Frequencies(tokens));
  }

  /** learn changes the entries of no category but its own. */
  lemma LearnLeavesOtherCategories(s: ModelState, tokens: seq<string>, c: string)
    requires CanLearn(s, c)
    ensures Learned(s, tokens, c).docCount - {c} == s.docCount - {c}
    ensures Learned(s, tokens, c).wordCount - {c} == s.wordCount - {c}
    ensures Learned(s, tokens, c).wordFrequencyCount - {c} == s.wordFrequencyCount - {c}
  {
    var b := Counted(s, c);
    RemoveUpdated(s.docCount, c, b.docCount[c]);
    if c !in s.categories {
      RemoveUpdated(s.wordCount, c, 0);
      RemoveUpdated(s.wordFrequencyCount, c, map[]);
    }
    RemoveUpdated(b.wordCount, c, b.wordCount[c] + |tokens|);
    RemoveUpdated(b.wordFrequencyCount, c, Merge(b.wordFrequencyCount[c], Frequencies(tokens)));
  }

  /**
   * The vocabulary only grows: the old vocabulary is a prefix of the new one, and what is appended
   * is exactly the tokens of the text not already present, once each, in order of first occurrence.
   */
  lemma LearnGrowsVocabulary(s: ModelState, tokens: seq<string>, c: string)
    requires CanLearn(s, c)
    ensures |Learned(s, tokens, c).vocabulary| >= |s.vocabulary|
    ensures Learned(s, tokens, c).vocabulary[..|s.vocabulary|] == s.vocabulary
    ensures forall t :: t in Learned(s, tokens, c).vocabulary[|s.vocabulary|..] <==> t in tokens && t !in s.vocabulary
    ensures InFirstOccurrenceOrder(Learned(s, tokens, c).vocabulary[|s.vocabulary|..], tokens)
    ensures NoDuplicates(s.vocabulary) ==> NoDuplicates(Learned(s, tokens, c).vocabulary)
  {
    var v, d := s.vocabulary, Distinct(tokens);
    var u := Unseen(v, d);
    var r := Learned(s, tokens, c).vocabulary;
    assert r == v + u;
    assert r[..|v|] == v && r[|v|..] == u;
    DistinctSpec(tokens);
    UnseenSpec(v, d);
    DistinctFirstOccurrence(tokens);
    UnseenOrder(v, d, tokens);
    if NoDuplicates(v) {
      AppendNoDuplicates(v, u);
    }
  }

  // ---------------------------------------------------------------------
  // learn keeps the invariant

  lemma LearnKeepsCategoriesRegistered(s: ModelState, tokens: seq<string>, c: string)
    requires CategoriesRegistered(s)
    ensures CanLearn(s, c) && CategoriesRegistered(Learned(s, tokens, c))
  {
    var cs := Learned(s, tokens, c).categories;
    if c !in s.categories {
      assert cs == s.categories + [c];
      forall i, j | 0 <= i < j < |cs| ensures cs[i] != cs[j] {
        if j == |cs| - 1 {
          assert cs[i] in s.categories;
        }
      }
    }
  }

  /** The document counts after one more document for c: c is added to the categories if new. */
  lemma CountedDocuments(s: ModelState, c: string)
    requires CanLearn(s, c)
    ensures Counted(s, c).categories == if c in s.categories then s.categories else s.categories + [c]
    ensures Counted(s, c).docCount == s.docCount[c := (if c in s.categories then s.docCount[c] else 0) + 1]
    ensures Counted(s, c).totalDocuments == s.totalDocuments + 1
  {
  }

  /** `learn`'s first steps as written: registering c, then one more document for c and in total, give Counted. */
  lemma RegisterThenCount(s: ModelState, c: string)
    requires CanLearn(s, c)
    ensures c in Register(s, c).docCount
    ensures var r := Register(s, c);
      r.(docCount := r.docCount[c := r.docCount[c] + 1], totalDocuments := r.totalDocuments + 1) == Counted(s, c)
  {
  }

  /** One more document for c, registered first if new, keeps the total equal to the sum of the counts. */
  lemma DocumentBump(cs: seq<string>, m: map<string, nat>, total: nat, c: string)
    requires NoDuplicates(cs) && (forall d :: d in m <==> d in cs) && TotalIsSum(cs, m, total)
    ensures TotalIsSum(if c in cs then cs else cs + [c], m[c := (if c in cs then m[c] else 0) + 1], total + 1)
  {
    if c in cs {
      SumOverUpdate(cs, m, c, m[c] + 1);
    } else {
      var cs' := cs + [c];
      assert cs'[..|cs|] == cs;
      SumOverUpdateOutside(cs, m, c, 1);
      assert SumOver(cs', m[c := 1]) == total + 1;
    }
  }

  lemma CountedKeepsDocumentsCounted(s: ModelState, c: string)
    requires CanLearn(s, c) && NoDuplicates(s.categories) && (forall d :: d in s.docCount <==> d in s.categories)
    requires DocumentsCounted(s)
    ensures DocumentsCounted(Counted(s, c))
  {
    var r := Counted(s, c);
    CountedDocuments(s, c);
    DocumentBump(s.categories, s.docCount, s.totalDocuments, c);
    assert TotalIsSum(r.categories, r.docCount, r.totalDocuments);
  }

  lemma LearnKeepsDocumentsCounted(s: ModelState, tokens: seq<string>, c: string)
    requires CategoriesRegistered(s) && DocumentsCounted(s)
    ensures CanLearn(s, c) && DocumentsCounted(Learned(s, tokens, c))
  {
    CountedKeepsDocumentsCounted(s, c);
  }

  /** Counts over the old vocabulary are unchanged when the vocabulary is extended by tokens new to it. */
  lemma SumOverExtendedVocabulary(v: seq<string>, u: seq<string>, m: map<string, nat>)
    requires forall t :: t in m ==> t in v
    requires forall t :: t in u ==> t !in v
    ensures SumOver(v + u, m) == SumOver(v, m)
  {
    SumOverAppend(v, u, m);
    SumOverAbsent(u, m);
  }

  /** After learn every frequency key is in the vocabulary and every frequency is at least 1. */
  lemma LearnKeepsFrequencies(s: ModelState, tokens: seq<string>, c: string)
    requires CategoriesRegistered(s) && WordsCounted(s)
    ensures CanLearn(s, c)
    ensures forall d, t :: d in Learned(s, tokens, c).wordFrequencyCount && t in Learned(s, tokens, c).wordFrequencyCount[d] ==>
              t in Learned(s, tokens, c).vocabulary && Learned(s, tokens, c).wordFrequencyCount[d][t] >= 1
  {
    var r := Learned(s, tokens, c);
    var f := Frequencies(tokens);
    var m := Register(s, c).wordFrequencyCount[c];
    LearnGrowsVocabulary(s, tokens, c);
    FrequenciesSpec(tokens);
    GetMerge(m, f);
    forall d, t | d in r.wordFrequencyCount && t in r.wordFrequencyCount[d]
      ensures t in r.vocabulary && r.wordFrequencyCount[d][t] >= 1
    {
      assert t in r.vocabulary[..|s.vocabulary|] ==> t in r.vocabulary;
      assert t in r.vocabulary[|s.vocabulary|..] ==> t in r.vocabulary;
      if d == c {
        assert Get(r.wordFrequencyCount[c], t) == Get(m, t) + Get(f, t);
        if t !in m {
          assert t in f;
        }
      } else {
        assert r.wordFrequencyCount[d] == s.wordFrequencyCount[d];
      }
    }
  }

  /** c's own entries after learn, in terms of the statistics before it. */
  lemma LearnedOwnEntries(s: ModelState, tokens: seq<string>, c: string)
    requires CanLearn(s, c)
    ensures Learned(s, tokens, c).vocabulary == s.vocabulary + Unseen(s.vocabulary, Distinct(tokens))
    ensures Learned(s, tokens, c).wordCount[c] == (if c in s.categories then s.wordCount[c] else 0) + |tokens|
    ensures Learned(s, tokens, c).wordFrequencyCount[c]
            == Merge(if c in s.categories then s.wordFrequencyCount[c] else map[], Frequencies(tokens))
  {
    var b := Counted(s, c);
    var m: map<string, nat> := if c in s.categories then s.wordFrequencyCount[c] else map[];
    assert b.wordFrequencyCount[c] == m;
    assert Learned(s, tokens, c).wordFrequencyCount[c] == Merge(b.wordFrequencyCount[c], Frequencies(tokens));
  }

  /** After learn c's word count is still the sum of its frequencies: both grew by the number of tokens. */
  lemma LearnKeepsOwnWordCount(s: ModelState, tokens: seq<string>, c: string)
    requires CategoriesRegistered(s) && WordsCounted(s)
    ensures CanLearn(s, c)
    ensures Learned(s, tokens, c).wordCount[c] == SumOver(Learned(s, tokens, c).vocabulary, Learned(s, tokens, c).wordFrequencyCount[c])
  {
    var v, u := s.vocabulary, Unseen(s.vocabulary, Distinct(tokens));
    var m: map<string, nat> := if c in s.categories then s.wordFrequencyCount[c] else map[];
    var f := Frequencies(tokens);
    var w := if c in s.categories then s.wordCount[c] else 0;
    LearnedOwnEntries(s, tokens, c);
    DistinctSpec(tokens);
    UnseenSpec(v, Distinct(tokens));
    AppendNoDuplicates(v, u);
    assert forall t :: t in m ==> t in v;
    SumOverMerge(v + u, m, f);
    SumOverExtendedVocabulary(v, u, m);
    assert forall t :: t in tokens ==> t in v + u;
    SumOverFrequencies(v + u, tokens);
    if c !in s.categories {
      SumOverAbsent(v, m);
    }
    assert SumOver(v + u, Merge(m, f)) == w + |tokens|;
  }

  lemma LearnKeepsWordsCounted(s: ModelState, tokens: seq<string>, c: string)
    requires CategoriesRegistered(s) && WordsCounted(s)
    ensures CanLearn(s, c) && WordsCounted(Learned(s, tokens, c))
  {
    var r := Learned(s, tokens, c);
    var v, u := s.vocabulary, Unseen(s.vocabulary, Distinct(tokens));
    LearnGrowsVocabulary(s, tokens, c);
    LearnKeepsFrequencies(s, tokens, c);
    LearnKeepsOwnWordCount(s, tokens, c);
    UnseenSpec(v, Distinct(tokens));
    forall d | d in r.categories
      ensures d in r.wordCount && d in r.wordFrequencyCount
      ensures r.wordCount[d] == SumOver(r.vocabulary, r.wordFrequencyCount[d])
    {
      if d != c {
        assert r.wordFrequencyCount[d] == s.wordFrequencyCount[d];
        SumOverExtendedVocabulary(v, u, s.wordFrequencyCount[d]);
      }
    }
  }

  /** Every learn call keeps the invariant. */
  lemma LearnPreservesConsistency(s: ModelState, tokens: seq<string>, c: string)
    requires Consistent(s)
    ensures CanLearn(s, c) && Consistent(Learned(s, tokens, c))
  {
    LearnKeepsCategoriesRegistered(s, tokens, c);
    LearnKeepsDocumentsCounted(s, tokens, c);
    LearnKeepsWordsCounted(s, tokens, c);
  }

  /**
   * Under the invariant a registered category's count of any token is at most its word count,
   * and its word count is the sum of its token counts over the vocabulary.
   */
  lemma FrequencyWithinWordCount(s: ModelState, c: string, t: string)
    requires Consistent(s) && c in s.categories
    ensures c in s.wordCount && c in s.wordFrequencyCount
    ensures s.wordCount[c] == SumOver(s.vocabulary, s.wordFrequencyCount[c])
    ensures Get(s.wordFrequencyCount[c], t) <= s.wordCount[c]
  {
    if t in s.wordFrequencyCount[c] {
      SumOverAtLeast(s.vocabulary, s.wordFrequencyCount[c], t);
    }
  }

  /** Under the invariant every registered category has at least one document, so the total is positive. */
  lemma DocumentsPositive(s: ModelState, c: string)
    requires Consistent(s) && c in s.categories
    ensures c in s.docCount && s.docCount[c] >= 1 && s.totalDocuments >= s.docCount[c]
  {
    SumOverAtLeast(s.categories, s.docCount, c);
  }
}
