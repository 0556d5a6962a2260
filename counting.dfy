/**
 * Counting over token sequences: the dictionary that `frequency_table` builds,
 * the order in which a Python dict yields its keys (order of first insertion),
 * and sums of count dictionaries taken along an ordered list of keys.
 */
module Counting {

  /** No element occurs twice in s. */
  predicate NoDuplicates<T(==)>(s: seq<T>) {
    forall i, j :: 0 <= i < j < |s| ==> s[i] != s[j]
  }

  /** `m.get(k, 0)` on a count dictionary. */
  function Get(m: map<string, nat>, k: string): nat {
    if k in m then m[k] else 0
  }

  /** The number of times t occurs in s. */
  function Occurrences(s: seq<string>, t: string): nat {
    if s == [] then 0
    else Occurrences(s[..|s| - 1], t) + (if s[|s| - 1] == t then 1 else 0)
  }

  /** The dictionary `frequency_table(s)` returns: every token of s with its number of occurrences. */
  function Frequencies(s: seq<string>): map<string, nat> {
    map t | t in s :: Occurrences(s, t)
  }

  /** The distinct elements of s in order of first occurrence: the key order of `frequency_table(s)`. */
  function Distinct(s: seq<string>): seq<string> {
    if s == [] then []
    else
      var p := s[..|s| - 1];
      Distinct(p) + (if s[|s| - 1] in p then [] else [s[|s| - 1]])
  }

  /** The elements of ks that are not in v, in the order of ks. */
  function Unseen(v: seq<string>, ks: seq<string>): seq<string> {
    if ks == [] then []
    else Unseen(v, ks[..|ks| - 1]) + (if ks[|ks| - 1] in v then [] else [ks[|ks| - 1]])
  }

  /** Pointwise sum of two count dictionaries (a missing key counts 0). */
  function Merge(m: map<string, nat>, n: map<string, nat>): map<string, nat> {
    map k | k in m.Keys + n.Keys :: Get(m, k) + Get(n, k)
  }

  lemma GetMerge(m: map<string, nat>, n: map<string, nat>)
    ensures forall k :: Get(Merge(m, n), k) == Get(m, k) + Get(n, k)
  {
  }

  /** A dictionary that has the keys of m and of keys and, per key, m's count plus n's for the keys in keys is Merge(m, n). */
  lemma MergeByKeys(m: map<string, nat>, n: map<string, nat>, counts: map<string, nat>, keys: seq<string>)
    requires forall t :: t in n <==> t in keys
    requires forall t :: t in counts <==> t in m || t in keys
    requires forall t :: Get(counts, t) == Get(m, t) + (if t in keys then Get(n, t) else 0)
    ensures counts == Merge(m, n)
  {
    GetMerge(m, n);
    forall t | t in counts ensures counts[t] == Merge(m, n)[t] {
      assert Get(counts, t) == Get(Merge(m, n), t);
    }
  }

  /** Updating key c changes nothing off c. */
  lemma RemoveUpdated<V>(m: map<string, V>, c: string, v: V)
    ensures m[c := v] - {c} == m - {c}
  {
  }

  /** A map that has key c and agrees with b off c is b updated at c. */
  lemma UpdateOfOthers<V>(r: map<string, V>, b: map<string, V>, c: string)
    requires c in r && r - {c} == b - {c}
    ensures r == b[c := r[c]]
  {
    forall d ensures d in r <==> d in b[c := r[c]] {
      if d != c {
        assert d in r <==> d in r - {c};
        assert d in b <==> d in b - {c};
      }
    }
    forall d | d in r && d != c ensures r[d] == b[d] {
      assert (r - {c})[d] == (b - {c})[d];
    }
  }

  /** The sum of `m.get(k, 0)` over the keys listed in keys. */
  function SumOver(keys: seq<string>, m: map<string, nat>): nat {
    if keys == [] then 0
    else SumOver(keys[..|keys| - 1], m) + Get(m, keys[|keys| - 1])
  }

  /** The position of the first occurrence of x in s. */
  function FirstIndex(s: seq<string>, x: string): (i: nat)
    requires x in s
    ensures i < |s| && s[i] == x && x !in s[..i]
  {
    if s[0] == x then 0
    else
      assert x in s[1..];
      var i := 1 + FirstIndex(s[1..], x);
      assert s[..i] == [s[0]] + s[1..][..i - 1];
      i
  }

  /** Every element of d occurs in s, and d lists them in the order in which they first occur in s. */
  predicate InFirstOccurrenceOrder(d: seq<string>, s: seq<string>) {
    && (forall x :: x in d ==> x in s)
    && (forall i, j :: 0 <= i < j < |d| ==> d[i] in s && d[j] in s && FirstIndex(s, d[i]) < FirstIndex(s, d[j]))
  }

  // ---------------------------------------------------------------------
  // Occurrences and frequency tables

  lemma {:induction false} OccurrencesPositive(s: seq<string>, t: string)
    ensures t in s <==> Occurrences(s, t) > 0
  {
    if s != [] {
      var p := s[..|s| - 1];
      assert s == p + [s[|s| - 1]];
      OccurrencesPositive(p, t);
    }
  }

  /** `frequency_table(s)` has exactly the tokens of s as keys, each with its number of occurrences, which is at least 1. */
  lemma FrequenciesSpec(s: seq<string>)
    ensures forall t :: t in Frequencies(s) <==> t in s
    ensures forall t :: Get(Frequencies(s), t) == Occurrences(s, t)
    ensures forall t :: t in Frequencies(s) ==> Frequencies(s)[t] >= 1
  {
    forall t ensures Get(Frequencies(s), t) == Occurrences(s, t) && (t in s ==> Occurrences(s, t) >= 1) {
      OccurrencesPositive(s, t);
    }
  }

  /** One more element extends the distinct elements by it exactly when it is new. */
  lemma DistinctSnoc(p: seq<string>, x: string)
    ensures Distinct(p + [x]) == Distinct(p) + (if x in p then [] else [x])
  {
    assert (p + [x])[..|p + [x]| - 1] == p;
  }

  /** One more token x raises its count by one (the step `table[x] = table.get(x, 0) + 1`). */
  lemma FrequenciesSnoc(p: seq<string>, x: string)
    ensures Frequencies(p + [x]) == Frequencies(p)[x := Get(Frequencies(p), x) + 1]
  {
    var s := p + [x];
    assert s[..|s| - 1] == p;
    FrequenciesSpec(p);
    var lhs, rhs := Frequencies(s), Frequencies(p)[x := Get(Frequencies(p), x) + 1];
    assert lhs.Keys == rhs.Keys;
    forall t | t in lhs ensures lhs[t] == rhs[t] {
      assert Occurrences(s, t) == Occurrences(p, t) + (if x == t then 1 else 0);
    }
  }

  // ---------------------------------------------------------------------
  // First-occurrence order

  /** Distinct(s) holds each element of s exactly once. */
  lemma {:induction false} DistinctSpec(s: seq<string>)
    ensures forall x :: x in Distinct(s) <==> x in s
    ensures NoDuplicates(Distinct(s))
  {
    if s != [] {
      var p := s[..|s| - 1];
      assert s == p + [s[|s| - 1]];
      DistinctSpec(p);
    }
  }

  lemma {:induction false} FirstIndexPrefix(p: seq<string>, q: seq<string>, y: string)
    requires y in p
    ensures FirstIndex(p + q, y) == FirstIndex(p, y)
  {
    if p[0] != y {
      assert (p + q)[1..] == p[1..] + q;
      FirstIndexPrefix(p[1..], q, y);
    }
  }

  lemma FirstIndexLast(p: seq<string>, x: string)
    requires x !in p
    ensures FirstIndex(p + [x], x) == |p|
  {
    var i := FirstIndex(p + [x], x);
    assert (p + [x])[..|p|] == p;
  }

  /** The keys of `frequency_table(s)` come in the order of their first occurrence in s. */
  lemma {:induction false} DistinctFirstOccurrence(s: seq<string>)
    ensures InFirstOccurrenceOrder(Distinct(s), s)
  {
    DistinctSpec(s);
    if s != [] {
      var p, x := s[..|s| - 1], s[|s| - 1];
      assert s == p + [x];
      DistinctFirstOccurrence(p);
      DistinctSpec(p);
      var d := Distinct(s);
      forall i, j | 0 <= i < j < |d|
        ensures d[i] in s && d[j] in s && FirstIndex(s, d[i]) < FirstIndex(s, d[j])
      {
        assert d[i] in p;
        FirstIndexPrefix(p, [x], d[i]);
        if j < |Distinct(p)| {
          FirstIndexPrefix(p, [x], d[j]);
        } else {
          FirstIndexLast(p, x);
          assert FirstIndex(p, d[i]) < |p|;
        }
      }
    }
  }

  /** Unseen(v, ks) is ks without the elements of v. */
  lemma {:induction false} UnseenSpec(v: seq<string>, ks: seq<string>)
    ensures forall x :: x in Unseen(v, ks) <==> x in ks && x !in v
    ensures NoDuplicates(ks) ==> NoDuplicates(Unseen(v, ks))
  {
    if ks != [] {
      var p := ks[..|ks| - 1];
      assert ks == p + [ks[|ks| - 1]];
      UnseenSpec(v, p);
      if NoDuplicates(ks) {
        assert NoDuplicates(p);
        assert ks[|ks| - 1] !in p;
      }
    }
  }

  lemma OrderSnoc(q: seq<string>, y: string, s: seq<string>)
    requires InFirstOccurrenceOrder(q, s) && y in s
    requires forall x :: x in q ==> FirstIndex(s, x) < FirstIndex(s, y)
    ensures InFirstOccurrenceOrder(q + [y], s)
  {
    var u := q + [y];
    forall i, j | 0 <= i < j < |u|
      ensures u[i] in s && u[j] in s && FirstIndex(s, u[i]) < FirstIndex(s, u[j])
    {
      if j < |q| {
        assert u[i] == q[i] && u[j] == q[j];
      } else {
        assert u[i] == q[i] && q[i] in q;
      }
    }
  }

  /** Appending a list without repetitions, disjoint from v, to v keeps v free of repetitions. */
  lemma AppendNoDuplicates(v: seq<string>, u: seq<string>)
    requires NoDuplicates(v) && NoDuplicates(u)
    requires forall x :: x in u ==> x !in v
    ensures NoDuplicates(v + u)
  {
    var r := v + u;
    forall i, j | 0 <= i < j < |r| ensures r[i] != r[j] {
      if j >= |v| {
        assert r[j] == u[j - |v|];
        assert u[j - |v|] in u;
        if i >= |v| {
          assert r[i] == u[i - |v|];
        } else {
          assert r[i] == v[i] && v[i] in v;
        }
      }
    }
  }

  /** Leaving elements out of a list keeps the first-occurrence order of the rest. */
  lemma {:induction false} UnseenOrder(v: seq<string>, d: seq<string>, s: seq<string>)
    requires InFirstOccurrenceOrder(d, s)
    ensures InFirstOccurrenceOrder(Unseen(v, d), s)
  {
    if d != [] {
      var p, y := d[..|d| - 1], d[|d| - 1];
      assert d == p + [y];
      assert InFirstOccurrenceOrder(p, s);
      UnseenOrder(v, p, s);
      var q := Unseen(v, p);
      if y !in v {
        assert Unseen(v, d) == q + [y];
        UnseenSpec(v, p);
        forall x | x in q ensures FirstIndex(s, x) < FirstIndex(s, y) {
          var k :| 0 <= k < |p| && p[k] == x;
          assert d[k] == x && d[|d| - 1] == y;
        }
        OrderSnoc(q, y, s);
      } else {
        assert Unseen(v, d) == q;
      }
    }
  }

  // ---------------------------------------------------------------------
  // Sums along a key order

  lemma {:induction false} SumOverAppend(a: seq<string>, b: seq<string>, m: map<string, nat>)
    ensures SumOver(a + b, m) == SumOver(a, m) + SumOver(b, m)
  {
    if b == [] {
      assert a + b == a;
    } else {
      var q := b[..|b| - 1];
      assert (a + b)[..|a + b| - 1] == a + q;
      SumOverAppend(a, q, m);
    }
  }

  lemma {:induction false} SumOverAbsent(keys: seq<string>, m: map<string, nat>)
    requires forall k :: k in keys ==> k !in m
    ensures SumOver(keys, m) == 0
  {
    if keys != [] {
      var p := keys[..|keys| - 1];
      assert forall k :: k in p ==> k in keys;
      SumOverAbsent(p, m);
    }
  }

  lemma {:induction false} SumOverUpdateOutside(keys: seq<string>, m: map<string, nat>, x: string, v: nat)
    requires x !in keys
    ensures SumOver(keys, m[x := v]) == SumOver(keys, m)
  {
    if keys != [] {
      var p := keys[..|keys| - 1];
      assert keys == p + [keys[|keys| - 1]];
      SumOverUpdateOutside(p, m, x, v);
    }
  }

  /** Changing the count of a key listed once changes the sum by the difference. */
  lemma {:induction false} SumOverUpdate(keys: seq<string>, m: map<string, nat>, x: string, v: nat)
    requires NoDuplicates(keys) && x in keys
    ensures SumOver(keys, m[x := v]) + Get(m, x) == SumOver(keys, m) + v
  {
    var p, y := keys[..|keys| - 1], keys[|keys| - 1];
    assert keys == p + [y];
    if y == x {
      assert x !in p;
      SumOverUpdateOutside(p, m, x, v);
    } else {
      assert x in p;
      SumOverUpdate(p, m, x, v);
    }
  }

  lemma {:induction false} SumOverMerge(keys: seq<string>, m: map<string, nat>, n: map<string, nat>)
    ensures SumOver(keys, Merge(m, n)) == SumOver(keys, m) + SumOver(keys, n)
  {
    if keys != [] {
      SumOverMerge(keys[..|keys| - 1], m, n);
      GetMerge(m, n);
    }
  }

  lemma {:induction false} SumOverAtLeast(keys: seq<string>, m: map<string, nat>, k: string)
    requires k in keys
    ensures Get(m, k) <= SumOver(keys, m)
  {
    var p := keys[..|keys| - 1];
    assert keys == p + [keys[|keys| - 1]];
    if keys[|keys| - 1] != k {
      SumOverAtLeast(p, m, k);
    }
  }

  lemma {:induction false} SumOverSame(keys: seq<string>, m: map<string, nat>, n: map<string, nat>)
    requires forall k :: k in keys ==> Get(m, k) == Get(n, k)
    ensures SumOver(keys, m) == SumOver(keys, n)
  {
    if keys != [] {
      var p := keys[..|keys| - 1];
      assert forall k :: k in p ==> k in keys;
      SumOverSame(p, m, n);
    }
  }

  /** Summed over any duplicate-free key list that covers s, the counts of `frequency_table(s)` add up to |s|. */
  lemma {:induction false} SumOverFrequencies(keys: seq<string>, s: seq<string>)
    requires NoDuplicates(keys)
    requires forall t :: t in s ==> t in keys
    ensures SumOver(keys, Frequencies(s)) == |s|
  {
    if s == [] {
      SumOverAbsent(keys, Frequencies(s));
    } else {
      var p, x := s[..|s| - 1], s[|s| - 1];
      assert s == p + [x];
      assert forall t :: t in p ==> t in s;
      SumOverFrequencies(keys, p);
      FrequenciesSnoc(p, x);
      SumOverUpdate(keys, Frequencies(p), x, Get(Frequencies(p), x) + 1);
    }
  }

  /** The counts of `frequency_table(s)`, summed in the table's own key order, add up to |s|. */
  lemma SumOverDistinctFrequencies(s: seq<string>)
    ensures SumOver(Distinct(s), Frequencies(s)) == |s|
  {
    DistinctSpec(s);
    SumOverFrequencies(Distinct(s), s);
  }
}
