/**
 * The final ranking: `analyzedPlaces.sort((a, b) => (a._SCORE || 0) - (b._SCORE || 0))`.
 * `Array.prototype.sort` is stable (ECMA-262, 10th edition, section 22.1.3.27),
 * so the result is the stable ascending sort by score. It is modelled by an
 * insertion sort; `StableSortUnique` shows that every stable sort gives the
 * same sequence.
 */
module Ranking {
  import opened Places

  /**
   * The sort key `_SCORE || 0`. `_SCORE` is the validated numeric score; on
   * every JSON number `x || 0` is `x` (only NaN would differ, and JSON text
   * cannot denote it), so the key is the score itself.
   */
  function RankKey(p: AnalyzedPlace): real
  {
    p.score
  }

  /** Nondecreasing by key. */
  predicate SortedByRank(s: seq<AnalyzedPlace>)
  {
    forall i, j :: 0 <= i < j < |s| ==> RankKey(s[i]) <= RankKey(s[j])
  }

  /** The elements of `s` whose key is `k`, in their order in `s`. */
  function WithKey(s: seq<AnalyzedPlace>, k: real): (r: seq<AnalyzedPlace>)
    ensures forall x :: x in r ==> x in s && RankKey(x) == k
  {
    if s == [] then []
    else (if RankKey(s[0]) == k then [s[0]] else []) + WithKey(s[1..], k)
  }

  /** Inserts `x` before the first element whose key is not smaller. */
  function Insert(x: AnalyzedPlace, s: seq<AnalyzedPlace>): seq<AnalyzedPlace>
  {
    if s == [] || RankKey(x) <= RankKey(s[0]) then [x] + s
    else [s[0]] + Insert(x, s[1..])
  }

  /** Insertion adds exactly one element. */
  lemma {:induction false} InsertPermutes(x: AnalyzedPlace, s: seq<AnalyzedPlace>)
    ensures multiset(Insert(x, s)) == multiset(s) + multiset{x}
  {
    if s != [] && RankKey(s[0]) < RankKey(x) {
      InsertPermutes(x, s[1..]);
      assert s == [s[0]] + s[1..];
    }
  }

  /** Insertion into a sorted sequence keeps it sorted. */
  lemma {:induction false} InsertSorted(x: AnalyzedPlace, s: seq<AnalyzedPlace>)
    requires SortedByRank(s)
    ensures SortedByRank(Insert(x, s))
  {
    if s == [] || RankKey(x) <= RankKey(s[0]) {
      var r := [x] + s;
      forall i, j | 0 <= i < j < |r| ensures RankKey(r[i]) <= RankKey(r[j]) {
        if i > 0 {
          assert r[i] == s[i - 1];
        }
        assert r[j] == s[j - 1];
      }
    } else {
      InsertSorted(x, s[1..]);
      InsertPermutes(x, s[1..]);
      InsertStepSorted(x, s, Insert(x, s[1..]));
    }
  }

  /** Among the elements of each key, the inserted one comes first: it precedes those already there. */
  lemma {:induction false} InsertWithKey(x: AnalyzedPlace, s: seq<AnalyzedPlace>, k: real)
    ensures WithKey(Insert(x, s), k) == (if RankKey(x) == k then [x] else []) + WithKey(s, k)
  {
    var hx := if RankKey(x) == k then [x] else [];
    if s == [] || RankKey(x) <= RankKey(s[0]) {
      var r := [x] + s;
      assert r[0] == x && r[1..] == s;
      assert WithKey(r, k) == hx + WithKey(s, k);
    } else {
      var rest := Insert(x, s[1..]);
      var r := [s[0]] + rest;
      var h0 := if RankKey(s[0]) == k then [s[0]] else [];
      InsertWithKey(x, s[1..], k);
      assert r[0] == s[0] && r[1..] == rest;
      assert WithKey(r, k) == h0 + WithKey(rest, k);
      assert WithKey(rest, k) == hx + WithKey(s[1..], k);
      assert WithKey(s, k) == h0 + WithKey(s[1..], k);
      assert h0 == [] || hx == [];
      assert h0 + (hx + WithKey(s[1..], k)) == hx + (h0 + WithKey(s[1..], k));
    }
  }

  /** The step of `Insert` that passes the first element: it has the least key of the result. */
  lemma InsertStepSorted(x: AnalyzedPlace, s: seq<AnalyzedPlace>, rest: seq<AnalyzedPlace>)
    requires s != [] && RankKey(s[0]) < RankKey(x)
    requires multiset(rest) == multiset(s[1..]) + multiset{x}
    requires SortedByRank(s) && SortedByRank(rest)
    ensures SortedByRank([s[0]] + rest)
  {
    var r := [s[0]] + rest;
    forall y | y in rest ensures RankKey(s[0]) <= RankKey(y) {
      assert y in multiset(rest);
      if y != x {
        assert y in multiset(s[1..]);
        var j :| 0 <= j < |s[1..]| && s[1..][j] == y;
        assert s[j + 1] == y;
      }
    }
    forall i, j | 0 <= i < j < |r| ensures RankKey(r[i]) <= RankKey(r[j]) {
      if i == 0 {
        assert r[j] == rest[j - 1] && r[j] in rest;
      } else {
        assert r[i] == rest[i - 1] && r[j] == rest[j - 1];
      }
    }
  }

  /** `Array.prototype.sort` with the score comparator: a stable sort by ascending score. */
  function SortByRank(s: seq<AnalyzedPlace>): (r: seq<AnalyzedPlace>)
    ensures SortedByRank(r)
    ensures multiset(r) == multiset(s)
    ensures forall k :: WithKey(r, k) == WithKey(s, k)
  {
    if s == [] then []
    else
      var t := SortByRank(s[1..]);
      InsertPermutes(s[0], t);
      InsertSorted(s[0], t);
      forall k ensures WithKey(Insert(s[0], t), k) == WithKey(s, k) {
        InsertWithKey(s[0], t, k);
      }
      assert s == [s[0]] + s[1..];
      Insert(s[0], t)
  }

  /** The result of sorting holds the same places, in nondecreasing order of score, ties in input order. */
  lemma SortByRankSpec(s: seq<AnalyzedPlace>)
    ensures |SortByRank(s)| == |s|
    ensures forall x :: x in SortByRank(s) <==> x in s
    ensures forall i, j :: 0 <= i < j < |SortByRank(s)| ==> SortByRank(s)[i].score <= SortByRank(s)[j].score
  {
    var r := SortByRank(s);
    assert |multiset(r)| == |multiset(s)|;
    forall x ensures x in r <==> x in s {
      assert x in r <==> x in multiset(r);
      assert x in s <==> x in multiset(s);
    }
  }

  /** The first element of a non-empty sequence is the first of the elements that share its key. */
  lemma WithKeyHead(s: seq<AnalyzedPlace>)
    requires s != []
    ensures WithKey(s, RankKey(s[0])) != [] && WithKey(s, RankKey(s[0]))[0] == s[0]
  {
  }

  /** Removing a common first element keeps the key-wise subsequences equal. */
  lemma WithKeyTail(t: seq<AnalyzedPlace>, u: seq<AnalyzedPlace>)
    requires t != [] && u != [] && t[0] == u[0]
    requires forall k :: WithKey(t, k) == WithKey(u, k)
    ensures forall k :: WithKey(t[1..], k) == WithKey(u[1..], k)
  {
    forall k ensures WithKey(t[1..], k) == WithKey(u[1..], k) {
      var h := if RankKey(t[0]) == k then [t[0]] else [];
      assert WithKey(t, k) == h + WithKey(t[1..], k);
      assert WithKey(u, k) == h + WithKey(u[1..], k);
      assert WithKey(t[1..], k) == (h + WithKey(t[1..], k))[|h|..];
      assert WithKey(u[1..], k) == (h + WithKey(u[1..], k))[|h|..];
    }
  }

  /** In a sorted sequence no element has a smaller key than the first. */
  lemma SortedMin(s: seq<AnalyzedPlace>, x: AnalyzedPlace)
    requires SortedByRank(s) && x in s
    ensures RankKey(s[0]) <= RankKey(x)
  {
    var i :| 0 <= i < |s| && s[i] == x;
    if i > 0 {
      assert RankKey(s[0]) <= RankKey(s[i]);
    }
  }

  /**
   * Stable sorting has one answer: two sorted sequences that agree, key by
   * key, on the order of their elements are equal. So every stable sort of
   * `s` returns `SortByRank(s)`.
   */
  lemma {:induction false} SortedStableUnique(t: seq<AnalyzedPlace>, u: seq<AnalyzedPlace>)
    requires SortedByRank(t) && SortedByRank(u)
    requires forall k :: WithKey(t, k) == WithKey(u, k)
    ensures t == u
    decreases |t| + |u|
  {
    if t != [] {
      WithKeyHead(t);
      assert WithKey(u, RankKey(t[0])) != [];
    }
    if u != [] {
      WithKeyHead(u);
      assert WithKey(t, RankKey(u[0])) != [];
    }
    if t != [] && u != [] {
      var m, m' := RankKey(t[0]), RankKey(u[0]);
      assert WithKey(u, m)[0] in u;
      SortedMin(u, WithKey(u, m)[0]);
      assert WithKey(t, m')[0] in t;
      SortedMin(t, WithKey(t, m')[0]);
      assert m == m';
      WithKeyHead(u);
      assert t[0] == u[0];
      WithKeyTail(t, u);
      assert SortedByRank(t[1..]) && SortedByRank(u[1..]);
      SortedStableUnique(t[1..], u[1..]);
      assert t == [t[0]] + t[1..] && u == [u[0]] + u[1..];
    }
  }

  /** Any stable ascending sort of `s` by score is `SortByRank(s)`. */
  lemma StableSortUnique(s: seq<AnalyzedPlace>, t: seq<AnalyzedPlace>)
    requires SortedByRank(t)
    requires forall k :: WithKey(t, k) == WithKey(s, k)
    ensures t == SortByRank(s)
  {
    SortedStableUnique(t, SortByRank(s));
  }
}
