# NaiveBayes classifier, modelled in Dafny

The system is a multinomial Naive Bayes text classifier with add-one (Laplace) smoothing, written as a
single Python class. This model follows that class (`main.py`) operation by operation:

- **Training (`learn`, `initialize_category`, `frequency_table`).** The classifier is a Dafny class
  `Classifier.NaiveBayes`. Its fields are the Python attributes: `categories`, `docCount`,
  `totalDocuments`, `vocabulary`, `wordCount`, `wordFrequencyCount` and `options`. Its methods update those
  fields in place, with the same loops as the source. Each method is proved against a function on the
  value `Model.ModelState` of the seven persisted attributes:
  - `Model.Register` for `initialize_category`;
  - `Model.AddToken` and `Model.AddTokens` for the token loop;
  - `Model.Learned` for a whole `learn` call.

  The invariant `Model.Consistent` is proved to hold after construction and after every `learn` call. It says:
  - every category is listed once and has entries in all three count dictionaries;
  - the document total is the sum of the per-category document counts, each at least 1;
  - the vocabulary lists each token once and holds every counted token;
  - each category's word count is the sum of its token counts.
- **Scoring (`token_probability`, `probabilities`, `categorize`).** A token's smoothed probability is an
  exact rational. The logarithm is a parameter `ln` of the scoring operations. A category's score is
  ln(prior) + Σ frequency · ln(token probability), summed over the text's frequency table in its key order.
  `list.sort(key=…, reverse=True)` is modelled by `Ranking.Rank`, a stable insertion sort by descending score.
  `Ranking.StableDescendingUnique` shows that any stable descending ordering equals `Rank`, so `Rank` is
  exactly what Python's sort returns.
- **Persistence (`to_json`, `from_json`, `STATE_KEYS`).** A document is a parsed JSON object, i.e. a map from
  keys to JSON values. `Codec.Encode` collects the seven attributes under their STATE_KEYS names. `Codec.Decode`
  behaves as `from_json` on a parsed object:
  - the options must suit `__init__`;
  - the first missing key, in STATE_KEYS order, is reported;
  - otherwise every attribute is taken from the document.

  The round trip is proved in both directions.

Dictionaries in Python keep insertion order. The model represents each such dictionary as a Dafny `map` and
keeps its key order where the source depends on it:
- `frequency_table`'s key order is `Counting.Distinct`, the order of first occurrence;
- the order of `doc_count` keys is the `categories` list.

Module layout:
- `wrappers.dfy`: Option and Result;
- `json.dfy`: the JSON value type;
- `counting.dfy`: frequency tables, first-occurrence order, sums over a key order;
- `ranking.dfy`: the stable descending sort;
- `model.dfy`: the statistics value, the invariant, and what `learn` does to it;
- `codec.dfy`: encoding and decoding;
- `classifier.dfy`: the class.

## Model

| member | source | states |
|---|---|---|
| Classifier.NaiveBayes.constructor | main.py:6-14 | `options` None becomes an empty dictionary. All statistics start empty, the tokenizer is the one given, and the invariant holds. |
| Classifier.NaiveBayes.InitializeCategory | main.py:22-27 | A new category gets zero document and word counts and an empty frequency table, and is appended to `categories`. A known category leaves the state unchanged (`Register`). |
| Classifier.NaiveBayes.FrequencyTable | main.py:77-81 | The table maps each token to its number of occurrences (`Frequencies`). Its keys, in the order the dictionary yields them, are the distinct tokens in order of first occurrence (`Distinct`). |
| Classifier.NaiveBayes.Learn | main.py:29-45 | The new statistics are `Learned(old statistics, tokenizer(text), category)`, and learning keeps the invariant. |
| Classifier.NaiveBayes.CountTokens | main.py:36-45 | The token loop over the frequency table's keys, in order, has the effect of `AddTokens`. |
| Classifier.NaiveBayes.CountToken | main.py:37-45 | One pass of the token loop: a new token joins the vocabulary, and the token's frequency in the text is added to the category's count of it and to the category's word count. |
| Classifier.NaiveBayes.TokenProbability | main.py:72-75 | (count of the token in the category + 1) / (words of the category + vocabulary size) is strictly positive. Under the invariant it is at most 1 for a registered category. The requires is exactly the absence of Python's KeyError and ZeroDivisionError. |
| Classifier.NaiveBayes.MassIsRatio | main.py:72-75 | The smoothed probabilities of a list of tokens add up to (sum of their counts + number of tokens) / (word count + vocabulary size). |
| Classifier.NaiveBayes.ProbabilitiesSumToOne | main.py:72-75 | Add-one smoothing gives a distribution: over a non-empty vocabulary, a registered category's token probabilities sum to exactly 1. |
| Classifier.NaiveBayes.ScorableWhenConsistent | main.py:54-66 | Under the invariant, `probabilities` can fail only when a category exists, the text has tokens and the vocabulary is empty. Both directions are proved. |
| Classifier.NaiveBayes.CategoryLogProbability | main.py:60-65 | The inner loop yields ln(doc_count[c] / total_documents) plus, for each key of the frequency table in order, its frequency times ln(token_probability). |
| Classifier.NaiveBayes.Probabilities | main.py:54-70 | The result is the list of (category, score) pairs in `categories` order, ranked by the stable descending sort. |
| Classifier.NaiveBayes.RankedScores | main.py:59-70 | The ranked result has one pair per entry of `categories`: each category as often as `categories` lists it (once under the invariant), each with its own score. It is sorted highest first, and equal scores keep registration order. |
| Classifier.NaiveBayes.RankedHeadIsFirstHighest | main.py:47-52 | The head of the ranking belongs to the first category, in registration order, with the highest score. |
| Classifier.NaiveBayes.Categorize | main.py:47-52 | The result is None exactly when there are no categories (Python: IndexError). Otherwise it is the head of `probabilities`, i.e. the first category with the highest score. The flag does not matter. |
| Classifier.NaiveBayes.ToJson | main.py:83-86 | The document has exactly the seven STATE_KEYS and decodes back to the same statistics. |
| Classifier.NaiveBayes.SetAttributes | main.py:93-96 | The `setattr` calls set all seven attributes from the decoded values and leave the tokenizer alone. |
| Classifier.NaiveBayes.FromJson | main.py:88-97 | The result fails exactly when `Decode` fails, with the same error. Otherwise it is a fresh classifier whose statistics are the decoded ones. |
| Model.Empty | main.py:9-14 | The statistics of a fresh classifier are empty and satisfy the invariant. |
| Model.RegisterThenCount | main.py:30-32 | Registering the category and then adding one document to it and to the total gives `Counted`. |
| Model.AddTokensKeepsDocuments | main.py:36-45 | The token loop leaves the categories, the document counts and the options alone. |
| Model.AddTokensVocabulary | main.py:37-38 | Over distinct keys, the loop appends to the vocabulary exactly the keys missing from it, in key order. |
| Model.AddTokensWordCount | main.py:45 | The loop adds the sum of the keys' frequencies to the category's word count and changes no other word count. |
| Model.AddTokensFrequencies | main.py:40-43 | Over distinct keys, the loop adds each key's frequency to the category's count of it and changes no other category's table. |
| Model.LearnIsTokenLoop | main.py:33-45 | After the document counts are bumped, the token loop over the text's frequency table produces `Learned`. |
| Model.LearnUpdatesCounts | main.py:29-45 | Learning appends the category if it is new and adds exactly one document to it and to the total, also for a text without tokens. It adds the number of tokens to the category's word count and each token's occurrences to its count, and leaves the options unchanged. |
| Model.LearnLeavesOtherCategories | main.py:29-45 | No other category's document count, word count or frequency table changes. |
| Model.LearnGrowsVocabulary | main.py:37-38 | The old vocabulary is a prefix of the new one. What is appended is exactly the text's tokens not already present, once each, in order of first occurrence. A vocabulary without repeats stays without repeats. |
| Model.LearnPreservesConsistency | main.py:29-45 | Every `learn` call keeps the invariant. |
| Model.FrequencyWithinWordCount | main.py:72-75 | Under the invariant a category's count of any token is at most its word count, which is the sum of its counts over the vocabulary. |
| Model.DocumentsPositive | main.py:60-61 | Under the invariant a registered category has at least one document and the total is at least that, so the prior's logarithm is defined. |
| Counting.FrequenciesSpec | main.py:77-81 | The frequency table's keys are exactly the tokens, each with its number of occurrences, which is at least 1. |
| Counting.FrequenciesSnoc | main.py:79-80 | One more token raises its entry by one, starting from 0 if it is absent. |
| Counting.DistinctSpec | main.py:77-81 | The table's key order holds each token once and no other element. |
| Counting.DistinctFirstOccurrence | main.py:77-81 | The keys come in the order of their first occurrence in the tokens. |
| Counting.SumOverDistinctFrequencies | main.py:77-81 | The frequencies, summed in the table's key order, add up to the number of tokens. |
| Ranking.RankSpec | main.py:69 | The sort returns a permutation of its input (also of its labels) that is descending by score and stable: entries of equal score keep their order. |
| Ranking.StableDescendingUnique | main.py:69 | Two descending lists that agree on the order within every score are equal. So every stable descending sort gives `Rank`. |
| Ranking.RankHead | main.py:69 | The head of the sorted list is the first entry with the highest score. |
| Codec.FirstMissing | main.py:93-95 | Finds the first key, in list order, that the document lacks, or reports that it lacks none. |
| Codec.DecodeEncode | main.py:83-97 | Decoding the document `to_json` builds gives back the seven attributes, whenever the options suit `__init__`. |
| Codec.EncodeDecode | main.py:83-97 | Encoding a decoded document gives back the document's value under every STATE_KEYS key, and has no other keys. |
| Codec.DecodeReportsFirstMissing | main.py:93-95 | When the options suit `__init__`, an absent STATE_KEYS key whose predecessors are all present is the error reported. |
| Codec.DecodeComplete | main.py:93-96 | A document with every key, whose options suit `__init__`, decodes to its fields. |

## Left out

- `math.log` and floating point: scores are exact reals around an injected function `ln`. Rounding, and
  ties or orderings that only floating point would produce, are not modelled.
- The default tokenizer's regular expressions (`default_tokenizer`): the tokenizer is a function the host
  supplies to the constructor and to `FromJson`.
- A tokenizer stored under `options['tokenizer']`: `__init__` uses it when present. The model always uses the
  tokenizer it is given, and `options` is kept only as a JSON value.
- JSON text: `json.dumps`, `json.loads` and the `pretty_print` indentation of `to_json`. The model works on the
  parsed object.
- `main`, its printing and `spam_keywords`: sample usage with I/O.
- Classifier.NaiveBayes.FromJson: a JSON text that is not an object is not modelled. Its input is already an
  object.
- Classifier.NaiveBayes.FromJson: Python stores whatever value it finds under a key. The model decodes each
  attribute to its type, and a value of the wrong shape gives `Malformed(key)`. A document whose options are
  neither an object nor null gives `OptionsNotMapping`: it is where `__init__` would fail calling `.get`.
- Classifier.NaiveBayes.Probabilities: its requires, `Scorable`, excludes the inputs on which Python raises
  (KeyError, ZeroDivisionError, a `math.log` domain error). It excludes slightly more: it asks for the
  category's word_count and word_frequency_count entries also for a text without tokens, where Python does
  not read them. Only a loaded document without those entries can lack them. `ScorableWhenConsistent`
  shows that a classifier satisfying the invariant meets the requires except in one case: a text with
  tokens against an empty vocabulary.
- Classifier.NaiveBayes.Learn: its requires, `CanLearn`, asks a registered category to have its
  word_count and word_frequency_count entries even for a text without tokens, where Python's `learn` does
  not read them. Such a state arises only from a loaded document that lacks those entries; every state
  satisfying the invariant meets the requires. The model also omits what Python leaves behind when `learn`
  raises KeyError on such a state for a text with tokens: by then doc_count, total_documents and possibly
  the vocabulary have already changed.
- The wording of the ValueError that `from_json` raises is not modelled: `MissingProperty(key)` carries
  the missing key.
- Classifier.NaiveBayes.Categorize: its ensures gives an Option instead of raising IndexError on a classifier
  without categories.
- The token loop and the category loop are methods of their own (`CountTokens` and `CountToken`,
  `CategoryLogProbability`): the nested loops of `learn` and `probabilities` are split for the proofs.
  Their statements are unchanged.
- The partial state of a classifier in the middle of `from_json`: on a missing key Python raises and
  discards it, so the model sets the attributes only once all keys are present.
