/**
 * Python's built-in stable sort, as the commands use it:
 * `sort(key=lambda c: c.get("score", 0), reverse=True)` on cards, and
 * `sorted()` on integer type ids. Both are modelled by insertion sort;
 * the lemmas state what Python guarantees: the result is ordered, a
 * permutation of the input, and (for cards) cards with equal keys keep
 * their input order.
 */
module Sorting {
  import opened Util

  ghost predicate SortedByScoreDesc(s: seq<Card>) {
    forall i, j :: 0 <= i < j < |s| ==> ScoreOf(s[i]) >= ScoreOf(s[j])
  }

  /** The cards of `s` whose sort key is `k`, in their order in `s`. */
  function WithScore(s: seq<Card>, k: int): seq<Card> {
    if |s| == 0 then []
    else (if ScoreOf(s[0]) == k then [s[0]] else []) + WithScore(s[1..], k)
  }

  /**
   * Places `c` before the first card whose key is not greater; `c` came
   * before all of `s` in the input, so among equal keys it stays first.
   */
  function Insert(c: Card, s: seq<Card>): seq<Card> {
    if |s| == 0 then [c]
    else if ScoreOf(c) >= ScoreOf(s[0]) then [c] + s
    else [s[0]] + Insert(c, s[1..])
  }

  /** `sorted(s, key=lambda c: c.get("score", 0), reverse=True)` */
  function SortByScoreDesc(s: seq<Card>): seq<Card> {
    if |s| == 0 then [] else Insert(s[0], SortByScoreDesc(s[1..]))
  }

  ghost predicate ScoresAtMost(s: seq<Card>, bound: int) {
    forall i :: 0 <= i < |s| ==> ScoreOf(s[i]) <= bound
  }

  lemma {:induction false} InsertIsPermutation(c: Card, s: seq<Card>)
    ensures multiset(Insert(c, s)) == multiset(s) + multiset{c}
  {
    if |s| > 0 && ScoreOf(c) < ScoreOf(s[0]) {
      InsertIsPermutation(c, s[1..]);
      assert s == [s[0]] + s[1..];
    }
  }

  lemma {:induction false} InsertKeepsBound(c: Card, s: seq<Card>, bound: int)
    requires ScoresAtMost(s, bound) && ScoreOf(c) <= bound
    ensures ScoresAtMost(Insert(c, s), bound)
  {
    if |s| > 0 && ScoreOf(c) < ScoreOf(s[0]) {
      InsertKeepsBound(c, s[1..], bound);
    }
  }

  lemma {:induction false} InsertKeepsOrder(c: Card, s: seq<Card>)
    requires SortedByScoreDesc(s)
    ensures SortedByScoreDesc(Insert(c, s))
  {
    if |s| > 0 && ScoreOf(c) < ScoreOf(s[0]) {
      InsertKeepsOrder(c, s[1..]);
      InsertKeepsBound(c, s[1..], ScoreOf(s[0]));
      var t := Insert(c, s[1..]);
      assert forall j :: 0 < j < |[s[0]] + t| ==> ([s[0]] + t)[j] == t[j - 1];
    }
  }

  lemma {:induction false} InsertKeepsEqualKeysInOrder(c: Card, s: seq<Card>, k: int)
    requires SortedByScoreDesc(s)
    ensures WithScore(Insert(c, s), k) == (if ScoreOf(c) == k then [c] else []) + WithScore(s, k)
  {
    if |s| > 0 && ScoreOf(c) < ScoreOf(s[0]) {
      InsertKeepsEqualKeysInOrder(c, s[1..], k);
      var t := Insert(c, s[1..]);
      assert Insert(c, s) == [s[0]] + t;
      assert ([s[0]] + t)[1..] == t;
    } else if |s| > 0 {
      assert ([c] + s)[1..] == s;
    }
  }

  lemma {:induction false} SortKeepsEqualKeysInOrder(s: seq<Card>, k: int)
    ensures SortedByScoreDesc(SortByScoreDesc(s))
    ensures WithScore(SortByScoreDesc(s), k) == WithScore(s, k)
  {
    if |s| > 0 {
      SortKeepsEqualKeysInOrder(s[1..], k);
      InsertKeepsOrder(s[0], SortByScoreDesc(s[1..]));
      InsertKeepsEqualKeysInOrder(s[0], SortByScoreDesc(s[1..]), k);
    }
  }

  lemma {:induction false} SortIsPermutation(s: seq<Card>)
    ensures multiset(SortByScoreDesc(s)) == multiset(s)
  {
    if |s| > 0 {
      SortIsPermutation(s[1..]);
      InsertIsPermutation(s[0], SortByScoreDesc(s[1..]));
      assert s == [s[0]] + s[1..];
    }
  }

  /**
   * `sorted(..., reverse=True)` by score: ordered by descending key, a
   * permutation of the input, and stable.
   */
  lemma SortIsStablePermutation(s: seq<Card>)
    ensures |SortByScoreDesc(s)| == |s|
    ensures SortedByScoreDesc(SortByScoreDesc(s))
    ensures multiset(SortByScoreDesc(s)) == multiset(s)
    ensures forall k :: WithScore(SortByScoreDesc(s), k) == WithScore(s, k)
  {
    SortIsPermutation(s);
    assert |multiset(SortByScoreDesc(s))| == |multiset(s)|;
    forall k ensures WithScore(SortByScoreDesc(s), k) == WithScore(s, k) {
      SortKeepsEqualKeysInOrder(s, k);
    }
    SortKeepsEqualKeysInOrder(s, 0);
  }

  /** Taking a prefix of a sorted list takes cards that score no lower than any left behind. */
  lemma PrefixDominates(r: seq<Card>, k: nat)
    requires SortedByScoreDesc(r) && k <= |r|
    ensures forall x, y :: x in r[..k] && y in r[k..] ==> ScoreOf(x) >= ScoreOf(y)
  {
    forall x, y | x in r[..k] && y in r[k..] ensures ScoreOf(x) >= ScoreOf(y) {
      var i :| 0 <= i < k && r[..k][i] == x;
      var j :| 0 <= j < |r| - k && r[k..][j] == y;
      assert r[i] == x && r[k + j] == y;
    }
  }

  ghost predicate Ascending(s: seq<int>) {
    forall i, j :: 0 <= i < j < |s| ==> s[i] <= s[j]
  }

  function InsertInt(x: int, s: seq<int>): seq<int> {
    if |s| == 0 then [x]
    else if x <= s[0] then [x] + s
    else [s[0]] + InsertInt(x, s[1..])
  }

  /** `sorted(keys)` on integers. */
  function SortInts(s: seq<int>): seq<int> {
    if |s| == 0 then [] else InsertInt(s[0], SortInts(s[1..]))
  }

  lemma InsertIntKeepsOrder(x: int, s: seq<int>)
    requires Ascending(s)
    ensures Ascending(InsertInt(x, s))
    ensures multiset(InsertInt(x, s)) == multiset(s) + multiset{x}
    ensures forall i :: 0 <= i < |InsertInt(x, s)| ==> InsertInt(x, s)[i] == x || InsertInt(x, s)[i] in s
  {
    InsertIntAscends(x, s);
    InsertIntAddsOne(x, s);
  }

  lemma {:induction false} InsertIntAddsOne(x: int, s: seq<int>)
    ensures multiset(InsertInt(x, s)) == multiset(s) + multiset{x}
    ensures forall i :: 0 <= i < |InsertInt(x, s)| ==> InsertInt(x, s)[i] == x || InsertInt(x, s)[i] in s
  {
    if |s| > 0 && x > s[0] {
      InsertIntAddsOne(x, s[1..]);
      assert s == [s[0]] + s[1..];
    }
  }

  lemma {:induction false} InsertIntAscends(x: int, s: seq<int>)
    requires Ascending(s)
    ensures Ascending(InsertInt(x, s))
  {
    if |s| > 0 && x > s[0] {
      var t := InsertInt(x, s[1..]);
      InsertIntAscends(x, s[1..]);
      InsertIntAddsOne(x, s[1..]);
      assert InsertInt(x, s) == [s[0]] + t;
      forall j | 0 <= j < |t|
        ensures s[0] <= t[j]
      {
        assert t[j] == x || t[j] in s[1..];
      }
    }
  }

  lemma {:induction false} SortIntsIsOrderedPermutation(s: seq<int>)
    ensures Ascending(SortInts(s))
    ensures multiset(SortInts(s)) == multiset(s)
  {
    if |s| > 0 {
      SortIntsIsOrderedPermutation(s[1..]);
      InsertIntKeepsOrder(s[0], SortInts(s[1..]));
      assert s == [s[0]] + s[1..];
    }
  }
}
