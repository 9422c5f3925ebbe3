/** Python's stable `sort`/`sorted` on positions `0..n-1` of a list, by an
    integer key, and the rank of a position in the result. */
module Ranking {

  /** All positions are valid indices into `key`. */
  predicate InRange(key: seq<int>, xs: seq<nat>) {
    forall k :: 0 <= k < |xs| ==> xs[k] < |key|
  }

  /** `i` comes before `j` in a stable ascending sort by `key` of a list in
      position order: a smaller key, or the same key and an earlier position. */
  predicate Before(key: seq<int>, i: nat, j: nat)
    requires i < |key| && j < |key|
  {
    key[i] < key[j] || (key[i] == key[j] && i < j)
  }

  /** `ys` is strictly ordered by `Before`. */
  predicate Chain(key: seq<int>, ys: seq<nat>)
    requires InRange(key, ys)
  {
    forall a, b :: 0 <= a < b < |ys| ==> Before(key, ys[a], ys[b])
  }

  /** `ys` is in ascending order of `key`. */
  predicate Sorted(key: seq<int>, ys: seq<nat>)
    requires InRange(key, ys)
  {
    forall a, b :: 0 <= a < b < |ys| ==> key[ys[a]] <= key[ys[b]]
  }

  /** Equal keys in `xs` appear in increasing position order. */
  predicate TiesInOrder(key: seq<int>, xs: seq<nat>)
    requires InRange(key, xs)
  {
    forall a, b :: 0 <= a < b < |xs| && key[xs[a]] == key[xs[b]] ==> xs[a] < xs[b]
  }

  /** `[0, 1, ..., n-1]`. */
  function Range(n: nat): (r: seq<nat>)
    ensures |r| == n
    ensures forall k :: 0 <= k < n ==> r[k] == k
  {
    if n == 0 then [] else Range(n - 1) + [n - 1]
  }

  /** `-key`, element by element. */
  function Negated(key: seq<int>): (r: seq<int>)
    ensures |r| == |key|
    ensures forall k :: 0 <= k < |key| ==> r[k] == -key[k]
  {
    seq(|key|, k requires 0 <= k < |key| => -key[k])
  }

  /** Insert `x` into `ys` after every element with a smaller key, before
      the first with an equal or larger one. */
  function Insert(key: seq<int>, x: nat, ys: seq<nat>): (r: seq<nat>)
    requires x < |key| && InRange(key, ys)
    ensures |r| == |ys| + 1 && InRange(key, r)
    ensures multiset(r) == multiset(ys) + multiset{x}
  {
    if |ys| == 0 || key[x] <= key[ys[0]] then [x] + ys
    else
      assert ys == [ys[0]] + ys[1..];
      [ys[0]] + Insert(key, x, ys[1..])
  }

  /** Inserting into a sorted sequence keeps it sorted. */
  lemma {:induction false} InsertSorted(key: seq<int>, x: nat, ys: seq<nat>)
    requires x < |key| && InRange(key, ys)
    requires Sorted(key, ys)
    ensures Sorted(key, Insert(key, x, ys))
    decreases |ys|
  {
    if |ys| > 0 && key[x] > key[ys[0]] {
      var tail := Insert(key, x, ys[1..]);
      InsertSorted(key, x, ys[1..]);
      forall b | 0 <= b < |tail|
        ensures key[ys[0]] <= key[tail[b]]
      {
        assert tail[b] in multiset(tail);
        if tail[b] != x {
          assert tail[b] in multiset(ys[1..]);
          var c :| 0 <= c < |ys[1..]| && ys[1..][c] == tail[b];
          assert ys[c + 1] == tail[b];
        }
      }
      assert Insert(key, x, ys) == [ys[0]] + tail;
    }
  }

  /** Stable ascending insertion sort of `xs` by `key`: elements with equal
      keys keep their order in `xs`. */
  function StableSort(key: seq<int>, xs: seq<nat>): (r: seq<nat>)
    requires InRange(key, xs)
    ensures |r| == |xs| && InRange(key, r)
    ensures multiset(r) == multiset(xs)
    ensures Sorted(key, r)
  {
    if |xs| == 0 then []
    else
      assert xs == [xs[0]] + xs[1..];
      InsertSorted(key, xs[0], StableSort(key, xs[1..]));
      Insert(key, xs[0], StableSort(key, xs[1..]))
  }

  /** Position `i` outranks `j` under `sorted(..., key=score, reverse=True)`:
      a higher score, or the same score and an earlier position. */
  predicate Outranks(score: seq<int>, i: nat, j: nat)
    requires i < |score| && j < |score|
  {
    score[i] > score[j] || (score[i] == score[j] && i < j)
  }

  /** How many elements of `xs` outrank `j`. */
  function CountOutranking(score: seq<int>, j: nat, xs: seq<nat>): nat
    requires j < |score| && InRange(score, xs)
  {
    if |xs| == 0 then 0
    else (if Outranks(score, xs[0], j) then 1 else 0) + CountOutranking(score, j, xs[1..])
  }

  /** The rank of position `j`: the number of positions that outrank it. */
  function Rank(score: seq<int>, j: nat): nat
    requires j < |score|
  {
    CountOutranking(score, j, Range(|score|))
  }

  /** `sorted(range(n), key=score, reverse=True)`: Python keeps the sort
      stable under `reverse=True`, which is a stable ascending sort on the
      negated scores. */
  function RankOrder(score: seq<int>): (r: seq<nat>)
    ensures |r| == |score| && InRange(score, r)
    ensures forall j :: 0 <= j < |score| ==> j in r
    ensures forall a, b :: 0 <= a < b < |r| ==> Outranks(score, r[a], r[b])
  {
    RankSortOutranks(score);
    StableSort(Negated(score), Range(|score|))
  }

  /** The stable sort on negated scores holds every position, each ahead of
      every position it outranks. */
  lemma RankSortOutranks(score: seq<int>)
    ensures forall j :: 0 <= j < |score| ==> j in StableSort(Negated(score), Range(|score|))
    ensures forall a, b :: 0 <= a < b < |score| ==>
              Outranks(score, StableSort(Negated(score), Range(|score|))[a],
                       StableSort(Negated(score), Range(|score|))[b])
  {
    var key := Negated(score);
    var xs := Range(|score|);
    RangeTiesInOrder(key);
    SortChain(key, xs);
    RangeInSort(key);
    var r := StableSort(key, xs);
    forall a, b | 0 <= a < b < |r|
      ensures Outranks(score, r[a], r[b])
    {
      BeforeNegated(score, r[a], r[b]);
    }
  }

  /** Positions in position order have their ties in position order. */
  lemma RangeTiesInOrder(key: seq<int>)
    ensures InRange(key, Range(|key|)) && TiesInOrder(key, Range(|key|))
  {
  }

  /** A sort of all positions holds every position. */
  lemma RangeInSort(key: seq<int>)
    ensures forall j :: 0 <= j < |key| ==> j in StableSort(key, Range(|key|))
  {
    var xs := Range(|key|);
    forall j | 0 <= j < |key|
      ensures j in StableSort(key, xs)
    {
      assert xs[j] == j;
      assert j in multiset(xs);
    }
  }

  /** Ascending order of the negated scores is the outranking order. */
  lemma BeforeNegated(score: seq<int>, i: nat, j: nat)
    requires i < |score| && j < |score|
    requires Before(Negated(score), i, j)
    ensures Outranks(score, i, j)
  {
  }

  // ---------------------------------------------------------------------
  // Lemmas
  // ---------------------------------------------------------------------

  lemma {:induction false} InsertChain(key: seq<int>, x: nat, ys: seq<nat>)
    requires x < |key| && InRange(key, ys)
    requires Chain(key, ys)
    requires forall b :: 0 <= b < |ys| ==> (key[x] == key[ys[b]] ==> x < ys[b])
    ensures Chain(key, Insert(key, x, ys))
    decreases |ys|
  {
    if |ys| == 0 || key[x] <= key[ys[0]] {
      forall b | 0 <= b < |ys|
        ensures Before(key, x, ys[b])
      {
        if b > 0 {
          assert Before(key, ys[0], ys[b]);
        }
      }
      ChainCons(key, x, ys);
    } else {
      var tail := Insert(key, x, ys[1..]);
      InsertChain(key, x, ys[1..]);
      forall b | 0 <= b < |tail|
        ensures Before(key, ys[0], tail[b])
      {
        var z := tail[b];
        assert z in multiset(tail);
        if z != x {
          assert z in multiset(ys[1..]);
          var c :| 0 <= c < |ys[1..]| && ys[1..][c] == z;
          assert Before(key, ys[0], ys[c + 1]);
        }
      }
      ChainCons(key, ys[0], tail);
      assert Insert(key, x, ys) == [ys[0]] + tail;
    }
  }

  /** A head ahead of every element of a chain extends the chain. */
  lemma ChainCons(key: seq<int>, h: nat, t: seq<nat>)
    requires h < |key| && InRange(key, t) && Chain(key, t)
    requires forall b :: 0 <= b < |t| ==> Before(key, h, t[b])
    ensures InRange(key, [h] + t) && Chain(key, [h] + t)
  {
    var r := [h] + t;
    forall a, b | 0 <= a < b < |r|
      ensures Before(key, r[a], r[b])
    {
      assert r[b] == t[b - 1];
      if a > 0 {
        assert r[a] == t[a - 1];
      }
    }
  }

  /** A stable sort of positions whose equal keys are in position order is
      strictly ordered by `Before`. */
  lemma {:induction false} SortChain(key: seq<int>, xs: seq<nat>)
    requires InRange(key, xs)
    requires TiesInOrder(key, xs)
    ensures Chain(key, StableSort(key, xs))
    decreases |xs|
  {
    if |xs| > 0 {
      var rest := StableSort(key, xs[1..]);
      SortChain(key, xs[1..]);
      forall b | 0 <= b < |rest|
        ensures key[xs[0]] == key[rest[b]] ==> xs[0] < rest[b]
      {
        assert rest[b] in multiset(xs[1..]);
        var c :| 0 <= c < |xs[1..]| && xs[1..][c] == rest[b];
        assert xs[c + 1] == rest[b];
      }
      InsertChain(key, xs[0], rest);
    }
  }

  lemma {:induction false} CountInsert(score: seq<int>, j: nat, x: nat, ys: seq<nat>)
    requires j < |score| && x < |score| && InRange(score, ys)
    ensures CountOutranking(score, j, Insert(Negated(score), x, ys)) ==
              (if Outranks(score, x, j) then 1 else 0) + CountOutranking(score, j, ys)
    decreases |ys|
  {
    var key := Negated(score);
    if |ys| > 0 && key[x] > key[ys[0]] {
      CountInsert(score, j, x, ys[1..]);
      var r := Insert(key, x, ys);
      assert r[1..] == Insert(key, x, ys[1..]);
    }
  }

  /** Sorting does not change how many elements outrank `j`. */
  lemma {:induction false} CountSort(score: seq<int>, j: nat, xs: seq<nat>)
    requires j < |score| && InRange(score, xs)
    ensures CountOutranking(score, j, StableSort(Negated(score), xs)) == CountOutranking(score, j, xs)
    decreases |xs|
  {
    if |xs| > 0 {
      CountSort(score, j, xs[1..]);
      CountInsert(score, j, xs[0], StableSort(Negated(score), xs[1..]));
    }
  }

  lemma CountNone(score: seq<int>, j: nat, ys: seq<nat>)
    requires j < |score| && InRange(score, ys)
    requires forall k :: 0 <= k < |ys| ==> !Outranks(score, ys[k], j)
    ensures CountOutranking(score, j, ys) == 0
  {
    if |ys| > 0 {
      CountNone(score, j, ys[1..]);
    }
  }

  /** In a `Before`-chain on negated scores, exactly the `p` elements ahead
      of position `p` outrank it. */
  lemma {:induction false} CountInChain(score: seq<int>, ys: seq<nat>, p: nat)
    requires InRange(score, ys) && Chain(Negated(score), ys)
    requires p < |ys|
    ensures CountOutranking(score, ys[p], ys) == p
    decreases |ys|
  {
    var key := Negated(score);
    assert forall a, b :: 0 <= a < |ys| && 0 <= b < |ys| ==>
             (Before(key, ys[a], ys[b]) <==> Outranks(score, ys[a], ys[b]));
    if p == 0 {
      forall k | 0 <= k < |ys|
        ensures !Outranks(score, ys[k], ys[0])
      {
        if k > 0 {
          assert Before(key, ys[0], ys[k]);
        }
      }
      CountNone(score, ys[0], ys);
    } else {
      assert Chain(key, ys[1..]);
      CountInChain(score, ys[1..], p - 1);
      assert ys[1..][p - 1] == ys[p];
      assert Before(key, ys[0], ys[p]);
    }
  }

  /** Position `k` of the sort holds the position of rank `k`, and every
      position appears exactly once. */
  lemma RankOrderIsRank(score: seq<int>)
    ensures |RankOrder(score)| == |score|
    ensures InRange(score, RankOrder(score))
    ensures Chain(Negated(score), RankOrder(score))
    ensures forall k :: 0 <= k < |score| ==> Rank(score, RankOrder(score)[k]) == k
    ensures forall j :: 0 <= j < |score| ==> j in RankOrder(score)
  {
    var key := Negated(score);
    var xs := Range(|score|);
    var ys := RankOrder(score);
    assert |multiset(ys)| == |multiset(xs)|;
    SortChain(key, xs);
    forall k | 0 <= k < |score|
      ensures Rank(score, ys[k]) == k
    {
      CountSort(score, ys[k], xs);
      CountInChain(score, ys, k);
    }
    forall j | 0 <= j < |score|
      ensures j in ys
    {
      assert xs[j] == j;
      assert j in multiset(xs);
    }
  }

  /** The first `n` positions of the ranked order are exactly the positions
      whose rank is below `n`. */
  lemma TopPositions(score: seq<int>, n: nat)
    requires n <= |score|
    ensures forall j :: 0 <= j < |score| ==> (j in RankOrder(score)[..n] <==> Rank(score, j) < n)
  {
    RankOrderIsRank(score);
    var ys := RankOrder(score);
    forall j | 0 <= j < |score|
      ensures j in ys[..n] <==> Rank(score, j) < n
    {
      assert j in ys;
      var p :| 0 <= p < |ys| && ys[p] == j;
      assert Rank(score, j) == p;
      if j in ys[..n] {
        var q :| 0 <= q < n && ys[..n][q] == j;
        assert q == p;
      } else {
        assert p >= n;
      }
    }
  }

  /** Every selected position outranks every position left out. */
  lemma TopOutranksRest(score: seq<int>, n: nat, i: nat, j: nat)
    requires n <= |score| && i < |score| && j < |score|
    requires j in RankOrder(score)[..n] && i !in RankOrder(score)[..n]
    ensures Outranks(score, j, i)
  {
    RankOrderIsRank(score);
    var ys := RankOrder(score);
    var p :| 0 <= p < n && ys[..n][p] == j;
    assert i in ys;
    var q :| 0 <= q < |ys| && ys[q] == i;
    assert q >= n;
    assert Before(Negated(score), ys[p], ys[q]);
  }
}
