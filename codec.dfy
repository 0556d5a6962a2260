/**
 * `to_json` / `from_json` as the step between the seven persisted attributes and the
 * key -> value object that `json.dumps` writes and `json.loads` reads back.
 */
module Codec {
  import opened Wrappers
  import opened Json
  import opened Model

  /** STATE_KEYS: the persisted attributes, in the order `from_json` checks them. */
  const StateKeys: seq<string> :=
    ["categories", "doc_count", "total_documents", "vocabulary", "word_count", "word_frequency_count", "options"]

  /** A parsed JSON object. */
  type Document = map<string, Value>

  datatype DecodeError =
    | OptionsNotMapping      // `options` is present but neither an object nor null: `__init__` cannot call `.get` on it
    | MissingProperty(key: string)
    | Malformed(key: string) // the value under key does not have the shape of that attribute

  function EncodeStrings(xs: seq<string>): Value {
    JArray(seq(|xs|, i requires 0 <= i < |xs| => JString(xs[i])))
  }

  function DecodeStrings(v: Value): Option<seq<string>> {
    if v.JArray? && forall i :: 0 <= i < |v.items| ==> v.items[i].JString? then
      Some(seq(|v.items|, i requires 0 <= i < |v.items| && v.items[i].JString? => v.items[i].str))
    else None
  }

  function EncodeNat(n: nat): Value {
    JNumber(n)
  }

  function DecodeNat(v: Value): Option<nat> {
    if v.JNumber? && v.n >= 0 then Some(v.n) else None
  }

  function EncodeCounts(m: map<string, nat>): Value {
    JObject(map k | k in m :: EncodeNat(m[k]))
  }

  function DecodeCounts(v: Value): Option<map<string, nat>> {
    if v.JObject? && forall k :: k in v.fields ==> DecodeNat(v.fields[k]).Some? then
      Some(map k | k in v.fields :: DecodeNat(v.fields[k]).value)
    else None
  }

  function EncodeNested(m: map<string, map<string, nat>>): Value {
    JObject(map k | k in m :: EncodeCounts(m[k]))
  }

  function DecodeNested(v: Value): Option<map<string, map<string, nat>>> {
    if v.JObject? && forall k :: k in v.fields ==> DecodeCounts(v.fields[k]).Some? then
      Some(map k | k in v.fields :: DecodeCounts(v.fields[k]).value)
    else None
  }

  /** `{key: getattr(self, key) for key in STATE_KEYS}` */
  function Encode(s: ModelState): Document {
    map[
      "categories" := EncodeStrings(s.categories),
      "doc_count" := EncodeCounts(s.docCount),
      "total_documents" := EncodeNat(s.totalDocuments),
      "vocabulary" := EncodeStrings(s.vocabulary),
      "word_count" := EncodeCounts(s.wordCount),
      "word_frequency_count" := EncodeNested(s.wordFrequencyCount),
      "options" := s.options]
  }

  /** The first of keys that doc lacks, if any. */
  function FirstMissing(doc: Document, keys: seq<string>): (r: Option<string>)
    ensures r.None? <==> forall k :: k in keys ==> k in doc
    ensures r.Some? ==> exists i :: 0 <= i < |keys| && keys[i] == r.value && r.value !in doc
                                    && forall j :: 0 <= j < i ==> keys[j] in doc
  {
    if keys == [] then None
    else if keys[0] !in doc then Some(keys[0])
    else
      var r := FirstMissing(doc, keys[1..]);
      assert forall k :: k in keys ==> k == keys[0] || k in keys[1..];
      if r.Some? then
        var i :| 0 <= i < |keys[1..]| && keys[1..][i] == r.value && r.value !in doc
                 && forall j :: 0 <= j < i ==> keys[1..][j] in doc;
        assert keys[i + 1] == r.value;
        assert forall j :: 0 <= j < i + 1 ==> keys[j] in doc by {
          forall j | 0 <= j < i + 1 ensures keys[j] in doc {
            if j > 0 { assert keys[j] == keys[1..][j - 1]; }
          }
        }
        r
      else r
  }

  function Field<T>(o: Option<T>, key: string): Result<T, DecodeError> {
    if o.Some? then Success(o.value) else Failure(Malformed(key))
  }

  /** The attribute values of a document that has every key. */
  function DecodeFields(doc: Document): Result<ModelState, DecodeError>
    requires forall k :: k in StateKeys ==> k in doc
  {
    var categories :- Field(DecodeStrings(doc["categories"]), "categories");
    var docCount :- Field(DecodeCounts(doc["doc_count"]), "doc_count");
    var totalDocuments :- Field(DecodeNat(doc["total_documents"]), "total_documents");
    var vocabulary :- Field(DecodeStrings(doc["vocabulary"]), "vocabulary");
    var wordCount :- Field(DecodeCounts(doc["word_count"]), "word_count");
    var wordFrequencyCount :- Field(DecodeNested(doc["word_frequency_count"]), "word_frequency_count");
    Success(ModelState(categories, docCount, totalDocuments, vocabulary, wordCount, wordFrequencyCount, doc["options"]))
  }

  /** The options `from_json` hands to `__init__`: `json_data.get('options', {})`. */
  function InitOptions(doc: Document): Value {
    if "options" in doc then doc["options"] else JObject(map[])
  }

  /**
   * `from_json` on the parsed object: the options must suit `__init__`; then the first missing
   * key of STATE_KEYS, in that order, is reported; otherwise every value is copied as it is.
   */
  function Decode(doc: Document): Result<ModelState, DecodeError> {
    var options := InitOptions(doc);
    if !(options.JObject? || options.JNull?) then Failure(OptionsNotMapping)
    else
      match FirstMissing(doc, StateKeys)
      case Some(key) => Failure(MissingProperty(key))
      case None => DecodeFields(doc)
  }

  // ---------------------------------------------------------------------

  lemma StringsRoundTrip(xs: seq<string>)
    ensures DecodeStrings(EncodeStrings(xs)) == Some(xs)
  {
    var v := EncodeStrings(xs);
    assert forall i :: 0 <= i < |v.items| ==> v.items[i] == JString(xs[i]);
    var d := DecodeStrings(v).value;
    assert |d| == |xs| && forall i :: 0 <= i < |d| ==> d[i] == xs[i];
    assert d == xs;
  }

  lemma CountsRoundTrip(m: map<string, nat>)
    ensures DecodeCounts(EncodeCounts(m)) == Some(m)
  {
    var v := EncodeCounts(m);
    assert forall k :: k in v.fields ==> v.fields[k] == JNumber(m[k]) && DecodeNat(v.fields[k]) == Some(m[k]);
    var d := DecodeCounts(v).value;
    assert d.Keys == m.Keys;
    assert forall k :: k in d ==> d[k] == m[k];
    assert d == m;
  }

  lemma NestedRoundTrip(m: map<string, map<string, nat>>)
    ensures DecodeNested(EncodeNested(m)) == Some(m)
  {
    var v := EncodeNested(m);
    forall k | k in v.fields ensures DecodeCounts(v.fields[k]) == Some(m[k]) {
      CountsRoundTrip(m[k]);
    }
    var d := DecodeNested(v).value;
    assert d.Keys == m.Keys;
    assert forall k :: k in d ==> d[k] == m[k];
    assert d == m;
  }

  lemma StateKeysElements()
    ensures |StateKeys| == 7
    ensures StateKeys[0] == "categories" && StateKeys[1] == "doc_count" && StateKeys[2] == "total_documents"
    ensures StateKeys[3] == "vocabulary" && StateKeys[4] == "word_count" && StateKeys[5] == "word_frequency_count"
    ensures StateKeys[6] == "options"
  {
  }

  /** The seven keys are pairwise different. */
  lemma KeysDistinct()
    ensures "categories" != "doc_count" && "categories" != "total_documents" && "categories" != "vocabulary"
    ensures "categories" != "word_count" && "categories" != "word_frequency_count" && "categories" != "options"
    ensures "doc_count" != "total_documents" && "doc_count" != "vocabulary" && "doc_count" != "word_count"
    ensures "doc_count" != "word_frequency_count" && "doc_count" != "options" && "total_documents" != "vocabulary"
    ensures "total_documents" != "word_count" && "total_documents" != "word_frequency_count" && "total_documents" != "options"
    ensures "vocabulary" != "word_count" && "vocabulary" != "word_frequency_count" && "vocabulary" != "options"
    ensures "word_count" != "word_frequency_count" && "word_count" != "options" && "word_frequency_count" != "options"
  {
  }

  lemma EncodeKeys(s: ModelState)
    ensures Encode(s).Keys == set k | k in StateKeys
  {
  }

  lemma EncodeFields(s: ModelState)
    ensures "categories" in Encode(s) && "doc_count" in Encode(s) && "total_documents" in Encode(s)
    ensures "vocabulary" in Encode(s) && "word_count" in Encode(s) && "word_frequency_count" in Encode(s)
    ensures "options" in Encode(s)
    ensures Encode(s)["categories"] == EncodeStrings(s.categories)
    ensures Encode(s)["doc_count"] == EncodeCounts(s.docCount)
    ensures Encode(s)["total_documents"] == EncodeNat(s.totalDocuments)
    ensures Encode(s)["vocabulary"] == EncodeStrings(s.vocabulary)
    ensures Encode(s)["word_count"] == EncodeCounts(s.wordCount)
    ensures Encode(s)["word_frequency_count"] == EncodeNested(s.wordFrequencyCount)
    ensures Encode(s)["options"] == s.options
  {
    KeysDistinct();
  }

  /**
   * Encoding then decoding gives back all seven attributes. The only condition is the one
   * `__init__` puts on the options: an object, or null.
   */
  lemma DecodeEncode(s: ModelState)
    ensures (s.options.JObject? || s.options.JNull?) ==> Decode(Encode(s)) == Success(s)
  {
    var doc := Encode(s);
    EncodeFields(s);
    assert forall i :: 0 <= i < |StateKeys| ==> StateKeys[i] in doc;
    assert forall k :: k in StateKeys ==> k in doc;
    assert FirstMissing(doc, StateKeys).None?;
    StringsRoundTrip(s.categories);
    StringsRoundTrip(s.vocabulary);
    CountsRoundTrip(s.docCount);
    CountsRoundTrip(s.wordCount);
    NestedRoundTrip(s.wordFrequencyCount);
    assert DecodeFields(doc) == Success(s);
  }

  lemma StringsVerbatim(v: Value)
    requires DecodeStrings(v).Some?
    ensures EncodeStrings(DecodeStrings(v).value) == v
  {
  }

  lemma CountsVerbatim(v: Value)
    requires DecodeCounts(v).Some?
    ensures EncodeCounts(DecodeCounts(v).value) == v
  {
  }

  lemma NestedVerbatim(v: Value)
    requires DecodeNested(v).Some?
    ensures EncodeNested(DecodeNested(v).value) == v
  {
    var m := DecodeNested(v).value;
    forall k | k in v.fields ensures EncodeCounts(m[k]) == v.fields[k] {
      CountsVerbatim(v.fields[k]);
    }
  }

  /**
   * A successful decode copies each persisted value verbatim: encoding the result again gives
   * back the document's value under every key of STATE_KEYS, and nothing else.
   */
  lemma DecodedFields(doc: Document, s: ModelState)
    requires Decode(doc) == Success(s)
    ensures "categories" in doc && "doc_count" in doc && "total_documents" in doc
    ensures "vocabulary" in doc && "word_count" in doc && "word_frequency_count" in doc
    ensures "options" in doc
    ensures DecodeStrings(doc["categories"]) == Some(s.categories)
    ensures DecodeCounts(doc["doc_count"]) == Some(s.docCount)
    ensures DecodeNat(doc["total_documents"]) == Some(s.totalDocuments)
    ensures DecodeStrings(doc["vocabulary"]) == Some(s.vocabulary)
    ensures DecodeCounts(doc["word_count"]) == Some(s.wordCount)
    ensures DecodeNested(doc["word_frequency_count"]) == Some(s.wordFrequencyCount)
    ensures doc["options"] == s.options
  {
    assert FirstMissing(doc, StateKeys).None?;
    StateKeysElements();
    assert forall i :: 0 <= i < |StateKeys| ==> StateKeys[i] in doc;
  }

  /** Two documents that have the same value under each of the seven keys agree on STATE_KEYS. */
  lemma AgreeOnStateKeys(e: Document, doc: Document)
    requires "categories" in e && "doc_count" in e && "total_documents" in e && "vocabulary" in e
    requires "word_count" in e && "word_frequency_count" in e && "options" in e
    requires "categories" in doc && "doc_count" in doc && "total_documents" in doc && "vocabulary" in doc
    requires "word_count" in doc && "word_frequency_count" in doc && "options" in doc
    requires e["categories"] == doc["categories"] && e["doc_count"] == doc["doc_count"]
    requires e["total_documents"] == doc["total_documents"] && e["vocabulary"] == doc["vocabulary"]
    requires e["word_count"] == doc["word_count"] && e["word_frequency_count"] == doc["word_frequency_count"]
    requires e["options"] == doc["options"]
    ensures forall k :: k in StateKeys ==> k in doc && e[k] == doc[k]
  {
    StateKeysElements();
    forall k | k in StateKeys ensures k in doc && e[k] == doc[k] {
      var i :| 0 <= i < |StateKeys| && StateKeys[i] == k;
    }
  }

  lemma EncodeDecode(doc: Document)
    requires Decode(doc).Success?
    ensures Encode(Decode(doc).value).Keys == set k | k in StateKeys
    ensures forall k :: k in StateKeys ==> k in doc && Encode(Decode(doc).value)[k] == doc[k]
  {
    var s := Decode(doc).value;
    var e := Encode(s);
    DecodedFields(doc, s);
    EncodeKeys(s);
    EncodeFields(s);
    StringsVerbatim(doc["categories"]);
    StringsVerbatim(doc["vocabulary"]);
    CountsVerbatim(doc["doc_count"]);
    CountsVerbatim(doc["word_count"]);
    NestedVerbatim(doc["word_frequency_count"]);
    assert e["categories"] == doc["categories"] && e["doc_count"] == doc["doc_count"];
    assert e["total_documents"] == doc["total_documents"] && e["vocabulary"] == doc["vocabulary"];
    assert e["word_count"] == doc["word_count"] && e["word_frequency_count"] == doc["word_frequency_count"];
    assert e["options"] == doc["options"];
    AgreeOnStateKeys(e, doc);
  }

  /** A document whose options suit `__init__` and that has every key decodes to its fields. */
  lemma DecodeComplete(doc: Document)
    requires InitOptions(doc).JObject? || InitOptions(doc).JNull?
    requires forall i :: 0 <= i < |StateKeys| ==> StateKeys[i] in doc
    ensures forall k :: k in StateKeys ==> k in doc
    ensures Decode(doc) == DecodeFields(doc)
  {
  }

  /**
   * A document whose options suit `__init__` fails to decode exactly when a key of STATE_KEYS
   * is absent, and the error names the first absent key.
   */
  lemma DecodeReportsFirstMissing(doc: Document, i: nat)
    requires InitOptions(doc).JObject? || InitOptions(doc).JNull?
    requires i < |StateKeys| && StateKeys[i] !in doc
    requires forall j :: 0 <= j < i ==> StateKeys[j] in doc
    ensures Decode(doc) == Failure(MissingProperty(StateKeys[i]))
  {
    var r := FirstMissing(doc, StateKeys);
    assert r.Some?;
    var i' :| 0 <= i' < |StateKeys| && StateKeys[i'] == r.value && r.value !in doc
              && forall j :: 0 <= j < i' ==> StateKeys[j] in doc;
    assert i' == i;
  }
}
