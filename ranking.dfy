/**
 * The ordering step of `probabilities`: `result.sort(key=lambda x: x[1], reverse=True)`.
 * Python's sort is stable also with reverse=True, so entries with equal scores keep
 * their relative order. Rank is an insertion sort with that behaviour;
 * StableDescendingUnique shows that every stable descending ordering of a list is this one,
 * so Rank is exactly the list that the library sort produces.
 */
module Ranking {

  /** A (category, score) pair of the list `probabilities` returns. */
  type Entry = (string, real)

  /** Puts x in front of the first entry whose score is not above x's. */
  function Insert(x: Entry, r: seq<Entry>): seq<Entry> {
    if r == [] || r[0].1 <= x.1 then [x] + r
    else [r[0]] + Insert(x, r[1..])
  }

  /** The list sorted by score, highest first, ties in their original order. */
  function Rank(s: seq<Entry>): seq<Entry> {
    if s == [] then [] else Insert(s[0], Rank(s[1..]))
  }

  /** Scores never increase along r. */
  predicate Descending(r: seq<Entry>) {
    forall i, j :: 0 <= i < j < |r| ==> r[i].1 >= r[j].1
  }

  /** The entries of s whose score is v, in the order of s. */
  function Ties(s: seq<Entry>, v: real): seq<Entry> {
    if s == [] then []
    else (if s[0].1 == v then [s[0]] else []) + Ties(s[1..], v)
  }

  /** The category labels of a list of entries. */
  function Labels(s: seq<Entry>): seq<string> {
    seq(|s|, k requires 0 <= k < |s| => s[k].0)
  }

  lemma {:induction false} InsertPermutes(x: Entry, r: seq<Entry>)
    ensures multiset(Insert(x, r)) == multiset(r) + multiset{x}
  {
    if !(r == [] || r[0].1 <= x.1) {
      InsertPermutes(x, r[1..]);
      assert r == [r[0]] + r[1..];
    }
  }

  lemma {:induction false} InsertLabels(x: Entry, r: seq<Entry>)
    ensures multiset(Labels(Insert(x, r))) == multiset(Labels(r)) + multiset{x.0}
  {
    if r == [] || r[0].1 <= x.1 {
      assert Labels([x] + r) == [x.0] + Labels(r);
    } else {
      InsertLabels(x, r[1..]);
      assert Labels(r) == [r[0].0] + Labels(r[1..]);
      assert Labels([r[0]] + Insert(x, r[1..])) == [r[0].0] + Labels(Insert(x, r[1..]));
    }
  }

  /** Insert adds one entry, and the new list starts with x or with the old head. */
  lemma {:induction false} InsertHead(x: Entry, r: seq<Entry>)
    ensures |Insert(x, r)| == |r| + 1
    ensures Insert(x, r)[0] == x || (r != [] && Insert(x, r)[0] == r[0])
  {
    if !(r == [] || r[0].1 <= x.1) {
      InsertHead(x, r[1..]);
    }
  }

  lemma {:induction false} InsertDescending(x: Entry, r: seq<Entry>)
    requires Descending(r)
    ensures Descending(Insert(x, r))
  {
    if !(r == [] || r[0].1 <= x.1) {
      var rest := Insert(x, r[1..]);
      assert Descending(r[1..]) by {
        forall i, j | 0 <= i < j < |r[1..]| ensures r[1..][i].1 >= r[1..][j].1 {
          assert r[1..][i] == r[i + 1] && r[1..][j] == r[j + 1];
        }
      }
      InsertDescending(x, r[1..]);
      InsertHead(x, r[1..]);
      assert rest[0].1 <= r[0].1 by {
        if rest[0] != x { assert rest[0] == r[1]; }
      }
      var out := [r[0]] + rest;
      assert out == Insert(x, r);
      forall i, j | 0 <= i < j < |out| ensures out[i].1 >= out[j].1 {
        assert out[j] == rest[j - 1];
        if i == 0 {
          assert out[i] == r[0];
          if j > 1 { assert rest[0].1 >= rest[j - 1].1; }
        } else {
          assert out[i] == rest[i - 1];
        }
      }
    }
  }

  /** Ties of a list with one more entry in front. */
  lemma TiesCons(x: Entry, r: seq<Entry>, v: real)
    ensures Ties([x] + r, v) == (if x.1 == v then [x] else []) + Ties(r, v)
  {
    assert ([x] + r)[0] == x && ([x] + r)[1..] == r;
  }

  lemma {:induction false} InsertTies(x: Entry, r: seq<Entry>, v: real)
    ensures Ties(Insert(x, r), v) == (if x.1 == v then [x] else []) + Ties(r, v)
  {
    if r == [] || r[0].1 <= x.1 {
      TiesCons(x, r, v);
    } else {
      var rest := Insert(x, r[1..]);
      InsertTies(x, r[1..], v);
      TiesCons(r[0], rest, v);
      assert r == [r[0]] + r[1..];
      TiesCons(r[0], r[1..], v);
      if x.1 == v {
        assert Ties(Insert(x, r), v) == Ties(rest, v);
        assert Ties(r, v) == Ties(r[1..], v);
      } else {
        assert Ties(rest, v) == Ties(r[1..], v);
      }
    }
  }

  lemma {:induction false} RankPermutes(s: seq<Entry>)
    ensures multiset(Rank(s)) == multiset(s)
    ensures |Rank(s)| == |s|
  {
    if s != [] {
      RankPermutes(s[1..]);
      InsertPermutes(s[0], Rank(s[1..]));
      assert s == [s[0]] + s[1..];
      assert |Rank(s)| == |multiset(Rank(s))|;
    }
  }

  lemma {:induction false} RankLabels(s: seq<Entry>)
    ensures multiset(Labels(Rank(s))) == multiset(Labels(s))
  {
    if s != [] {
      RankLabels(s[1..]);
      InsertLabels(s[0], Rank(s[1..]));
      assert Labels(s) == [s[0].0] + Labels(s[1..]);
    }
  }

  lemma {:induction false} RankDescending(s: seq<Entry>)
    ensures Descending(Rank(s))
  {
    if s != [] {
      RankDescending(s[1..]);
      InsertDescending(s[0], Rank(s[1..]));
    }
  }

  lemma {:induction false} RankTies(s: seq<Entry>, v: real)
    ensures Ties(Rank(s), v) == Ties(s, v)
  {
    if s != [] {
      RankTies(s[1..], v);
      InsertTies(s[0], Rank(s[1..]), v);
    }
  }

  /** Rank yields a descending, stable permutation of its input. */
  lemma RankSpec(s: seq<Entry>)
    ensures |Rank(s)| == |s|
    ensures multiset(Rank(s)) == multiset(s)
    ensures multiset(Labels(Rank(s))) == multiset(Labels(s))
    ensures Descending(Rank(s))
    ensures forall v :: Ties(Rank(s), v) == Ties(s, v)
  {
    RankPermutes(s);
    RankLabels(s);
    RankDescending(s);
    forall v ensures Ties(Rank(s), v) == Ties(s, v) {
      RankTies(s, v);
    }
  }

  /**
   * The head of Rank(s) is s[m] for the first index m whose score is highest:
   * every score is at most s[m]'s and every earlier one is strictly below it.
   */
  lemma {:induction false} RankHead(s: seq<Entry>)
    requires s != []
    ensures exists m :: 0 <= m < |s| && Rank(s)[0] == s[m]
                       && (forall j :: 0 <= j < |s| ==> s[j].1 <= s[m].1)
                       && (forall j :: 0 <= j < m ==> s[j].1 < s[m].1)
  {
    if |s| == 1 {
      assert Rank(s)[0] == s[0];
    } else {
      RankHead(s[1..]);
      var m' :| 0 <= m' < |s[1..]| && Rank(s[1..])[0] == s[1..][m']
                 && (forall j :: 0 <= j < |s[1..]| ==> s[1..][j].1 <= s[1..][m'].1)
                 && (forall j :: 0 <= j < m' ==> s[1..][j].1 < s[1..][m'].1);
      var r := Rank(s[1..]);
      if r[0].1 <= s[0].1 {
        assert Rank(s)[0] == s[0];
        forall j | 0 <= j < |s| ensures s[j].1 <= s[0].1 {
          if j > 0 { assert s[j] == s[1..][j - 1]; }
        }
      } else {
        assert Rank(s)[0] == s[1 + m'];
        forall j | 0 <= j < |s| ensures s[j].1 <= s[1 + m'].1 {
          if j > 0 { assert s[j] == s[1..][j - 1]; }
        }
        forall j | 0 <= j < 1 + m' ensures s[j].1 < s[1 + m'].1 {
          if j > 0 { assert s[j] == s[1..][j - 1]; }
        }
      }
    }
  }

  lemma {:induction false} TiesOfTail(r: seq<Entry>, v: real)
    requires r != []
    ensures Ties(r[1..], v) == if r[0].1 == v then Ties(r, v)[1..] else Ties(r, v)
  {
  }

  lemma {:induction false} TiesMember(r: seq<Entry>, v: real, i: nat)
    requires i < |r| && r[i].1 == v
    ensures r[i] in Ties(r, v)
  {
    if i > 0 {
      TiesMember(r[1..], v, i - 1);
    }
  }

  lemma {:induction false} TiesElement(r: seq<Entry>, v: real, e: Entry)
    requires e in Ties(r, v)
    ensures e in r && e.1 == v
  {
    if r != [] && !(r[0].1 == v && e == r[0]) {
      TiesElement(r[1..], v, e);
    }
  }

  lemma DescendingHead(r: seq<Entry>, e: Entry)
    requires Descending(r) && e in r
    ensures r[0].1 >= e.1
  {
    var i :| 0 <= i < |r| && r[i] == e;
  }

  lemma DescendingTail(r: seq<Entry>)
    requires Descending(r) && r != []
    ensures Descending(r[1..])
  {
    forall i, j | 0 <= i < j < |r[1..]| ensures r[1..][i].1 >= r[1..][j].1 {
      assert r[1..][i] == r[i + 1] && r[1..][j] == r[j + 1];
    }
  }

  /** Two descending lists with the same ties at both head scores start with the same entry. */
  lemma HeadsAgree(r: seq<Entry>, t: seq<Entry>)
    requires Descending(r) && Descending(t) && r != [] && t != []
    requires Ties(r, r[0].1) == Ties(t, r[0].1) && Ties(r, t[0].1) == Ties(t, t[0].1)
    ensures r[0] == t[0]
  {
    TiesMember(t, t[0].1, 0);
    TiesElement(r, t[0].1, t[0]);
    DescendingHead(r, t[0]);
    TiesMember(r, r[0].1, 0);
    TiesElement(t, r[0].1, r[0]);
    DescendingHead(t, r[0]);
    var v := r[0].1;
    assert Ties(r, v)[0] == r[0] && Ties(t, v)[0] == t[0];
  }

  /**
   * Stable descending orderings are unique: two descending lists whose entries of each score
   * come in the same order are equal. So any stable sort by descending score gives Rank(s).
   */
  lemma {:induction false} StableDescendingUnique(r: seq<Entry>, t: seq<Entry>)
    requires Descending(r) && Descending(t)
    requires forall v :: Ties(r, v) == Ties(t, v)
    ensures r == t
  {
    if r == [] || t == [] {
      if r != t {
        var u := if r == [] then t else r;
        TiesMember(u, u[0].1, 0);
        assert false;
      }
    } else {
      assert Ties(r, r[0].1) == Ties(t, r[0].1);
      assert Ties(r, t[0].1) == Ties(t, t[0].1);
      HeadsAgree(r, t);
      forall w ensures Ties(r[1..], w) == Ties(t[1..], w) {
        TiesOfTail(r, w);
        TiesOfTail(t, w);
        assert Ties(r, w) == Ties(t, w);
      }
      DescendingTail(r);
      DescendingTail(t);
      StableDescendingUnique(r[1..], t[1..]);
      assert r == [r[0]] + r[1..] && t == [t[0]] + t[1..];
    }
  }
}
