/** Python's `sorted(items, key=key, reverse=True)`: descending by key, and items
    of equal key stay in their original order. */
module StableSort {

  /** A key compared lexicographically: a count first, then a score. */
  datatype Rank = Rank(count: int, score: real)

  predicate Above(a: Rank, b: Rank) {
    a.count > b.count || (a.count == b.count && a.score > b.score)
  }

  function Insert<T>(x: T, s: seq<T>, key: T -> Rank): (r: seq<T>)
    ensures |r| == |s| + 1
  {
    if s != [] && Above(key(x), key(s[|s| - 1]))
    then Insert(x, s[..|s| - 1], key) + [s[|s| - 1]]
    else s + [x]
  }

  function Sort<T>(xs: seq<T>, key: T -> Rank): (r: seq<T>)
    ensures |r| == |xs|
  {
    if xs == [] then [] else Insert(xs[|xs| - 1], Sort(xs[..|xs| - 1], key), key)
  }

  ghost predicate Descending<T>(s: seq<T>, key: T -> Rank) {
    forall i, j :: 0 <= i < j < |s| ==> !Above(key(s[j]), key(s[i]))
  }

  /** The items of one rank, in order. */
  ghost function OfRank<T>(s: seq<T>, key: T -> Rank, r: Rank): seq<T> {
    if s == [] then []
    else (if key(s[0]) == r then [s[0]] else []) + OfRank(s[1..], key, r)
  }

  lemma {:induction false} OfRankConcat<T>(a: seq<T>, b: seq<T>, key: T -> Rank, r: Rank)
    ensures OfRank(a + b, key, r) == OfRank(a, key, r) + OfRank(b, key, r)
  {
    if a == [] {
      assert a + b == b;
    } else {
      assert (a + b)[1..] == a[1..] + b;
      OfRankConcat(a[1..], b, key, r);
    }
  }

  lemma {:induction false} InsertPermutes<T>(x: T, s: seq<T>, key: T -> Rank)
    ensures multiset(Insert(x, s, key)) == multiset(s) + multiset{x}
  {
    if s != [] && Above(key(x), key(s[|s| - 1])) {
      var front, last := s[..|s| - 1], s[|s| - 1];
      InsertPermutes(x, front, key);
      assert multiset(s) == multiset(front) + multiset{last} by { assert s == front + [last]; }
    }
  }

  lemma {:induction false} InsertSorts<T>(x: T, s: seq<T>, key: T -> Rank)
    requires Descending(s, key)
    ensures Descending(Insert(x, s, key), key)
  {
    if s != [] && Above(key(x), key(s[|s| - 1])) {
      var front, last := s[..|s| - 1], s[|s| - 1];
      InsertSorts(x, front, key);
      var inner := Insert(x, front, key);
      forall i | 0 <= i < |inner| ensures !Above(key(last), key(inner[i])) {
        InsertPermutes(x, front, key);
        assert inner[i] in multiset(inner);
        assert inner[i] in front || inner[i] == x;
      }
    }
  }

  lemma {:induction false} InsertIsStable<T>(x: T, s: seq<T>, key: T -> Rank, r: Rank)
    ensures OfRank(Insert(x, s, key), key, r) == OfRank(s + [x], key, r)
  {
    if s != [] && Above(key(x), key(s[|s| - 1])) {
      var front, last := s[..|s| - 1], s[|s| - 1];
      InsertIsStable(x, front, key, r);
      OfRankConcat(Insert(x, front, key), [last], key, r);
      OfRankConcat(front, [x], key, r);
      OfRankConcat(front, [last], key, r);
      OfRankConcat(s, [x], key, r);
      assert s == front + [last];
    }
  }

  /** `Sort` permutes its input into descending order and is stable. */
  lemma {:induction false} SortCorrect<T>(xs: seq<T>, key: T -> Rank)
    ensures Descending(Sort(xs, key), key)
    ensures multiset(Sort(xs, key)) == multiset(xs)
    ensures forall r :: OfRank(Sort(xs, key), key, r) == OfRank(xs, key, r)
  {
    if xs != [] {
      var front, x := xs[..|xs| - 1], xs[|xs| - 1];
      assert xs == front + [x];
      SortCorrect(front, key);
      InsertSorts(x, Sort(front, key), key);
      InsertPermutes(x, Sort(front, key), key);
      forall r ensures OfRank(Sort(xs, key), key, r) == OfRank(xs, key, r) {
        InsertIsStable(x, Sort(front, key), key, r);
        OfRankConcat(Sort(front, key), [x], key, r);
        OfRankConcat(front, [x], key, r);
      }
    }
  }

  lemma {:induction false} OfRankHolds<T>(s: seq<T>, key: T -> Rank, i: nat)
    requires i < |s|
    ensures s[i] in OfRank(s, key, key(s[i]))
  {
    if i > 0 {
      OfRankHolds(s[1..], key, i - 1);
    }
  }

  lemma {:induction false} OfRankMember<T>(s: seq<T>, key: T -> Rank, r: Rank, x: T)
    requires x in OfRank(s, key, r)
    ensures x in s && key(x) == r
  {
    if s[0] != x || key(s[0]) != r {
      OfRankMember(s[1..], key, r, x);
    }
  }

  /** In a descending sequence the head has the highest rank that occurs. */
  lemma HeadRank<T>(a: seq<T>, b: seq<T>, key: T -> Rank)
    requires Descending(a, key) && Descending(b, key) && a != []
    requires forall r :: OfRank(a, key, r) == OfRank(b, key, r)
    ensures b != [] && !Above(key(a[0]), key(b[0]))
  {
    OfRankHolds(a, key, 0);
    OfRankMember(b, key, key(a[0]), a[0]);
  }

  /** The stable descending order is unique: two descending sequences that agree
      rank by rank are equal. */
  lemma {:induction false} StableOrderUnique<T>(a: seq<T>, b: seq<T>, key: T -> Rank)
    requires Descending(a, key) && Descending(b, key)
    requires forall r :: OfRank(a, key, r) == OfRank(b, key, r)
    ensures a == b
  {
    if a == [] {
      if b != [] { HeadRank(b, a, key); }
    } else {
      HeadRank(a, b, key);
      HeadRank(b, a, key);
      var r0 := key(a[0]);
      assert OfRank(a, key, r0)[0] == a[0] && OfRank(b, key, r0)[0] == b[0];
      forall r ensures OfRank(a[1..], key, r) == OfRank(b[1..], key, r) {
        var headPart := if r == r0 then [a[0]] else [];
        assert OfRank(a, key, r) == headPart + OfRank(a[1..], key, r);
        assert OfRank(b, key, r) == headPart + OfRank(b[1..], key, r);
        assert OfRank(a, key, r)[|headPart|..] == OfRank(a[1..], key, r);
        assert OfRank(b, key, r)[|headPart|..] == OfRank(b[1..], key, r);
      }
      StableOrderUnique(a[1..], b[1..], key);
      assert a == [a[0]] + a[1..] && b == [b[0]] + b[1..];
    }
  }

  lemma SortOfDescending<T>(s: seq<T>, key: T -> Rank)
    requires Descending(s, key)
    ensures Sort(s, key) == s
  {
    SortCorrect(s, key);
    StableOrderUnique(Sort(s, key), s, key);
  }
}
