/** A stable sort by an integer key, which is what Array.prototype.sort does with a comparison of keys. */
module StableSort {

  /** Puts `x` after everything whose key is no larger. */
  function Insert<T>(sorted: seq<T>, x: T, key: T -> int): seq<T> {
    if sorted == [] || key(x) < key(sorted[0]) then [x] + sorted
    else [sorted[0]] + Insert(sorted[1..], x, key)
  }

  function SortBy<T>(s: seq<T>, key: T -> int): seq<T> {
    if s == [] then [] else Insert(SortBy(s[..|s| - 1], key), s[|s| - 1], key)
  }

  /** The key of a number is itself. */
  function Itself(t: int): int {
    t
  }

  /** A smaller key, or an equal key and a rank at least `gap` lower. */
  ghost predicate Before<T>(a: T, b: T, key: T -> int, rank: T -> int, gap: nat) {
    key(a) < key(b) || (key(a) == key(b) && rank(a) + gap <= rank(b))
  }

  ghost predicate Ranked<T>(s: seq<T>, key: T -> int, rank: T -> int, gap: nat) {
    forall i, j :: 0 <= i < j < |s| ==> Before(s[i], s[j], key, rank, gap)
  }

  ghost predicate Chained<T>(s: seq<T>, key: T -> int, rank: T -> int, gap: nat) {
    |s| <= 1 || (Before(s[0], s[1], key, rank, gap) && Chained(s[1..], key, rank, gap))
  }

  ghost predicate SortedBy<T>(s: seq<T>, key: T -> int) {
    forall i, j :: 0 <= i < j < |s| ==> key(s[i]) <= key(s[j])
  }

  lemma {:induction false} ChainedIsRanked<T>(s: seq<T>, key: T -> int, rank: T -> int, gap: nat)
    requires Chained(s, key, rank, gap)
    ensures Ranked(s, key, rank, gap)
  {
    if |s| > 1 {
      var rest := s[1..];
      ChainedIsRanked(rest, key, rank, gap);
      forall i, j | 0 <= i < j < |s|
        ensures Before(s[i], s[j], key, rank, gap)
      {
        if i == 0 {
          assert j == 1 || Before(rest[0], rest[j - 1], key, rank, gap);
        } else {
          assert Before(rest[i - 1], rest[j - 1], key, rank, gap);
        }
      }
    }
  }

  lemma {:induction false} InsertAdds<T>(sorted: seq<T>, x: T, key: T -> int)
    ensures multiset(Insert(sorted, x, key)) == multiset(sorted)[x := multiset(sorted)[x] + 1]
    ensures |Insert(sorted, x, key)| == |sorted| + 1
  {
    if sorted != [] && key(sorted[0]) <= key(x) {
      InsertAdds(sorted[1..], x, key);
      assert sorted == [sorted[0]] + sorted[1..];
    }
  }

  lemma {:induction false} InsertChains<T>(sorted: seq<T>, x: T, key: T -> int, rank: T -> int, gap: nat)
    requires Chained(sorted, key, rank, gap) && forall y :: y in sorted ==> rank(y) + gap <= rank(x)
    ensures Chained(Insert(sorted, x, key), key, rank, gap)
  {
    if sorted != [] {
      assert sorted[0] in sorted;
      if key(sorted[0]) <= key(x) {
        var rest := Insert(sorted[1..], x, key);
        assert |sorted| == 1 ==> sorted[1..] == [];
        InsertChains(sorted[1..], x, key, rank, gap);
        assert ([sorted[0]] + rest)[1..] == rest;
        assert rest[0] == x || rest[0] == sorted[1];
      } else {
        assert ([x] + sorted)[1..] == sorted;
      }
    }
  }

  lemma {:induction false} KeepsAll<T>(s: seq<T>, key: T -> int)
    ensures multiset(SortBy(s, key)) == multiset(s) && |SortBy(s, key)| == |s|
  {
    if s != [] {
      var front, last := s[..|s| - 1], s[|s| - 1];
      KeepsAll(front, key);
      InsertAdds(SortBy(front, key), last, key);
      assert s == front + [last];
    }
  }

  lemma SameMembers<T>(a: seq<T>, b: seq<T>)
    requires multiset(a) == multiset(b)
    ensures forall y :: y in a <==> y in b
  {
    assert forall y :: y in a ==> y in multiset(a);
    assert forall y :: y in b ==> y in multiset(b);
  }

  lemma KeepsMember<T>(s: seq<T>, key: T -> int, y: T)
    ensures y in SortBy(s, key) <==> y in s
  {
    KeepsAll(s, key);
    SameMembers(SortBy(s, key), s);
  }

  lemma {:induction false} SortChains<T>(s: seq<T>, key: T -> int, rank: T -> int, gap: nat)
    requires forall i, j :: 0 <= i < j < |s| ==> rank(s[i]) + gap <= rank(s[j])
    ensures Chained(SortBy(s, key), key, rank, gap)
  {
    if s != [] {
      var front, last := s[..|s| - 1], s[|s| - 1];
      SortChains(front, key, rank, gap);
      forall y | y in SortBy(front, key)
        ensures rank(y) + gap <= rank(last)
      {
        KeepsMember(front, key, y);
        var i :| 0 <= i < |front| && front[i] == y;
        assert s[i] == y;
      }
      InsertChains(SortBy(front, key), last, key, rank, gap);
    }
  }

  /** The result is in key order, and entries with one key keep the order they came in. */
  lemma SortIsStable<T>(s: seq<T>, key: T -> int, rank: T -> int, gap: nat)
    requires forall i, j :: 0 <= i < j < |s| ==> rank(s[i]) + gap <= rank(s[j])
    ensures Ranked(SortBy(s, key), key, rank, gap)
  {
    SortChains(s, key, rank, gap);
    ChainedIsRanked(SortBy(s, key), key, rank, gap);
  }

  lemma SortSorts<T>(s: seq<T>, key: T -> int)
    ensures SortedBy(SortBy(s, key), key)
  {
    var sorted := SortBy(s, key);
    SortIsStable(s, key, (_: T) => 0, 0);
    assert forall i, j :: 0 <= i < j < |sorted| ==> Before(sorted[i], sorted[j], key, (_: T) => 0, 0);
  }

  /** Sorted input is left as it is. */
  lemma {:induction false} SortOfSorted<T>(s: seq<T>, key: T -> int)
    requires SortedBy(s, key)
    ensures SortBy(s, key) == s
  {
    if s != [] {
      var front, last := s[..|s| - 1], s[|s| - 1];
      SortOfSorted(front, key);
      InsertAtEnd(front, last, key);
      assert s == front + [last];
    }
  }

  lemma {:induction false} InsertAtEnd<T>(sorted: seq<T>, x: T, key: T -> int)
    requires forall i :: 0 <= i < |sorted| ==> key(sorted[i]) <= key(x)
    ensures Insert(sorted, x, key) == sorted + [x]
  {
    if sorted != [] {
      InsertAtEnd(sorted[1..], x, key);
      assert sorted == [sorted[0]] + sorted[1..];
    }
  }

  /** When no two entries share a key, the order they came in does not matter. */
  lemma SortForgetsOrder<T>(a: seq<T>, b: seq<T>, key: T -> int)
    requires multiset(a) == multiset(b)
    requires forall i, j :: 0 <= i < j < |a| ==> key(a[i]) != key(a[j])
    ensures SortBy(a, key) == SortBy(b, key)
  {
    KeepsAll(a, key);
    KeepsAll(b, key);
    SortSorts(a, key);
    SortSorts(b, key);
    DistinctKeys(a, SortBy(a, key), key);
    SortedIsOne(SortBy(a, key), SortBy(b, key), key);
  }

  lemma DistinctKeys<T>(a: seq<T>, sorted: seq<T>, key: T -> int)
    requires multiset(a) == multiset(sorted)
    requires forall i, j :: 0 <= i < j < |a| ==> key(a[i]) != key(a[j])
    ensures forall i, j :: 0 <= i < |sorted| && 0 <= j < |sorted| && key(sorted[i]) == key(sorted[j]) ==> sorted[i] == sorted[j]
  {
    SameMembers(a, sorted);
    forall i, j | 0 <= i < |sorted| && 0 <= j < |sorted| && key(sorted[i]) == key(sorted[j])
      ensures sorted[i] == sorted[j]
    {
      assert sorted[i] in sorted && sorted[j] in sorted;
      var p :| 0 <= p < |a| && a[p] == sorted[i];
      var q :| 0 <= q < |a| && a[q] == sorted[j];
    }
  }

  lemma {:induction false} SortedIsOne<T>(a: seq<T>, b: seq<T>, key: T -> int)
    requires multiset(a) == multiset(b) && SortedBy(a, key) && SortedBy(b, key)
    requires forall i, j :: 0 <= i < |a| && 0 <= j < |a| && key(a[i]) == key(a[j]) ==> a[i] == a[j]
    ensures a == b
  {
    assert |multiset(a)| == |a| && |multiset(b)| == |b|;
    if a != [] {
      SameMembers(a, b);
      assert b[0] in b && a[0] in a;
      var i :| 0 <= i < |b| && b[i] == a[0];
      var j :| 0 <= j < |a| && a[j] == b[0];
      assert key(b[0]) <= key(b[i]) && key(a[0]) <= key(a[j]);
      CancelFirst(a, b);
      SortedIsOne(a[1..], b[1..], key);
    }
  }

  lemma CancelFirst<T>(a: seq<T>, b: seq<T>)
    requires a != [] && b != [] && a[0] == b[0] && multiset(a) == multiset(b)
    ensures multiset(a[1..]) == multiset(b[1..])
  {
    assert a == [a[0]] + a[1..] && b == [a[0]] + b[1..];
    assert multiset(a[1..]) == multiset(a) - multiset{a[0]};
    assert multiset(b[1..]) == multiset(b) - multiset{a[0]};
  }

  /** Two sorted lists of numbers with the same members are one list. */
  lemma SortedNumbersAreOne(a: seq<int>, b: seq<int>)
    requires multiset(a) == multiset(b)
    requires forall i, j :: 0 <= i <= j < |a| ==> a[i] <= a[j]
    requires forall i, j :: 0 <= i <= j < |b| ==> b[i] <= b[j]
    ensures a == b
  {
    SortedIsOne(a, b, Itself);
  }
}
