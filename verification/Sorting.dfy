/**
  The host's list operations: `filter`, and `sort` with a comparator that
  subtracts two ranks. The language specification makes `sort` stable, so it is
  modelled by the insertion sort that keeps equal elements in input order.
 */
module Sorting {

  /** `xs.filter(p)`. */
  function Keep<T>(xs: seq<T>, p: T -> bool): (r: seq<T>) {
    if xs == [] then []
    else if p(xs[0]) then [xs[0]] + Keep(xs[1..], p)
    else Keep(xs[1..], p)
  }

  lemma {:induction false} KeepMembers<T(!new)>(xs: seq<T>, p: T -> bool)
    ensures forall x :: x in Keep(xs, p) <==> x in xs && p(x)
  {
    if xs != [] {
      KeepMembers(xs[1..], p);
      assert forall x :: x in xs <==> x == xs[0] || x in xs[1..];
    }
  }

  lemma EmptyOrFirst<T>(xs: seq<T>)
    ensures xs == [] || xs[0] in xs
  {
  }

  lemma {:induction false} KeepConcat<T(!new)>(xs: seq<T>, ys: seq<T>, p: T -> bool)
    ensures Keep(xs + ys, p) == Keep(xs, p) + Keep(ys, p)
  {
    if xs == [] {
      assert xs + ys == ys;
    } else {
      KeepConcat(xs[1..], ys, p);
      assert (xs + ys)[1..] == xs[1..] + ys;
    }
  }

  /** Two filters in a row are one filter by the conjunction. */
  lemma {:induction false} KeepTwice<T(!new)>(xs: seq<T>, p: T -> bool, q: T -> bool, both: T -> bool)
    requires forall x :: both(x) <==> p(x) && q(x)
    ensures Keep(Keep(xs, p), q) == Keep(xs, both)
  {
    if xs == [] {
    } else {
      KeepTwice(xs[1..], p, q, both);
      if p(xs[0]) {
        assert Keep(xs, p) == [xs[0]] + Keep(xs[1..], p);
        assert ([xs[0]] + Keep(xs[1..], p))[1..] == Keep(xs[1..], p);
      }
    }
  }

  /** Filtering only looks at the values of the predicate on the elements. */
  lemma {:induction false} KeepSame<T(!new)>(xs: seq<T>, p: T -> bool, q: T -> bool)
    requires forall x :: x in xs ==> p(x) == q(x)
    ensures Keep(xs, p) == Keep(xs, q)
  {
    if xs != [] {
      KeepSame(xs[1..], p, q);
    }
  }

  ghost predicate Distinct<T(!new)>(xs: seq<T>) {
    forall i, j :: 0 <= i < j < |xs| ==> xs[i] != xs[j]
  }

  ghost predicate SortedBy<T(!new)>(xs: seq<T>, rank: T -> int) {
    forall i, j :: 0 <= i < j < |xs| ==> rank(xs[i]) <= rank(xs[j])
  }

  /** Puts `x` in front of the first element that does not rank below it. */
  function Insert<T>(x: T, xs: seq<T>, rank: T -> int): (r: seq<T>)
    ensures multiset(r) == multiset{x} + multiset(xs)
  {
    if xs == [] || rank(x) <= rank(xs[0]) then [x] + xs
    else
      assert xs == [xs[0]] + xs[1..];
      [xs[0]] + Insert(x, xs[1..], rank)
  }

  /** `xs.sort((a, b) => rank(a) - rank(b))`. */
  function SortBy<T>(xs: seq<T>, rank: T -> int): (r: seq<T>)
    ensures multiset(r) == multiset(xs)
  {
    if xs == [] then []
    else
      assert xs == [xs[0]] + xs[1..];
      Insert(xs[0], SortBy(xs[1..], rank), rank)
  }

  lemma {:induction false} InsertSorted<T(!new)>(x: T, xs: seq<T>, rank: T -> int)
    requires SortedBy(xs, rank)
    ensures SortedBy(Insert(x, xs, rank), rank)
  {
    if xs == [] || rank(x) <= rank(xs[0]) {
    } else {
      InsertSorted(x, xs[1..], rank);
      var rest := Insert(x, xs[1..], rank);
      forall j | 0 <= j < |rest| ensures rank(xs[0]) <= rank(rest[j]) {
        assert rest[j] in multiset(rest);
      }
    }
  }

  lemma {:induction false} SortSorted<T(!new)>(xs: seq<T>, rank: T -> int)
    ensures SortedBy(SortBy(xs, rank), rank)
  {
    if xs != [] {
      SortSorted(xs[1..], rank);
      InsertSorted(xs[0], SortBy(xs[1..], rank), rank);
    }
  }

  lemma {:induction false} InsertStable<T(!new)>(x: T, xs: seq<T>, rank: T -> int, k: int)
    ensures Keep(Insert(x, xs, rank), OfRank(rank, k)) ==
            Keep([x] + xs, OfRank(rank, k))
  {
    if xs == [] || rank(x) <= rank(xs[0]) {
    } else {
      InsertStable(x, xs[1..], rank, k);
      assert ([x] + xs)[1..] == xs;
      assert ([x] + xs[1..])[1..] == xs[1..];
      assert ([xs[0]] + Insert(x, xs[1..], rank))[1..] == Insert(x, xs[1..], rank);
    }
  }

  /** Elements of equal rank keep their input order. */
  lemma {:induction false} SortStable<T(!new)>(xs: seq<T>, rank: T -> int, k: int)
    ensures Keep(SortBy(xs, rank), OfRank(rank, k)) == Keep(xs, OfRank(rank, k))
  {
    if xs != [] {
      var rest := SortBy(xs[1..], rank);
      SortStable(xs[1..], rank, k);
      InsertStable(xs[0], rest, rank, k);
      assert ([xs[0]] + rest)[1..] == rest;
    }
  }

  lemma {:induction false} SortMembers<T(!new)>(xs: seq<T>, rank: T -> int)
    ensures |SortBy(xs, rank)| == |xs|
    ensures forall x :: x in SortBy(xs, rank) <==> x in xs
  {
    var s := SortBy(xs, rank);
    assert |multiset(s)| == |multiset(xs)|;
    forall x ensures x in s <==> x in xs {
      assert x in s <==> x in multiset(s);
      assert x in xs <==> x in multiset(xs);
    }
  }

  /** Distinctness only depends on the multiset of elements. */
  lemma {:induction false} DistinctMultiset<T(!new)>(xs: seq<T>)
    ensures Distinct(xs) <==> forall x :: multiset(xs)[x] <= 1
  {
    if xs != [] {
      var rest := xs[1..];
      DistinctMultiset(rest);
      assert xs == [xs[0]] + rest;
      if Distinct(xs) {
        assert Distinct(rest);
        assert xs[0] !in rest;
        assert xs[0] !in multiset(rest);
      } else {
        var i, j :| 0 <= i < j < |xs| && xs[i] == xs[j];
        if i > 0 {
          assert rest[i - 1] == rest[j - 1];
          var x :| multiset(rest)[x] > 1;
          assert multiset(xs)[x] > 1;
        } else {
          assert rest[j - 1] == xs[0];
          assert xs[0] in multiset(rest);
          assert multiset(xs)[xs[0]] > 1;
        }
      }
    }
  }

  lemma SortDistinct<T(!new)>(xs: seq<T>, rank: T -> int)
    requires Distinct(xs)
    ensures Distinct(SortBy(xs, rank))
  {
    DistinctMultiset(xs);
    DistinctMultiset(SortBy(xs, rank));
  }

  ghost function Members<T>(xs: seq<T>): set<T> {
    set x | x in xs
  }

  lemma {:induction false} DistinctCard<T(!new)>(xs: seq<T>)
    requires Distinct(xs)
    ensures |Members(xs)| == |xs|
  {
    if xs != [] {
      DistinctCard(xs[1..]);
      assert Members(xs) == {xs[0]} + Members(xs[1..]);
    }
  }

  lemma SubsetCard<T>(a: set<T>, b: set<T>)
    requires a <= b
    ensures |a| <= |b|
    ensures a != b ==> |a| < |b|
  {
    assert b == a + (b - a);
  }

  /** More places than values: some value repeats. */
  lemma Pigeonhole<T(!new)>(xs: seq<T>, values: set<T>) returns (i: nat, j: nat)
    requires |xs| > |values|
    requires forall x :: x in xs ==> x in values
    ensures i < j < |xs| && xs[i] == xs[j]
  {
    if Distinct(xs) {
      DistinctCard(xs);
      SubsetCard(Members(xs), values);
      assert false;
    }
    i, j :| 0 <= i < j < |xs| && xs[i] == xs[j];
  }

  /** Two sorted lists of the same elements agree rank by rank. */
  lemma {:induction false} SortedRanks<T(!new)>(xs: seq<T>, ys: seq<T>, rank: T -> int)
    requires SortedBy(xs, rank) && SortedBy(ys, rank)
    requires multiset(xs) == multiset(ys)
    ensures |xs| == |ys|
    ensures forall i :: 0 <= i < |xs| ==> rank(xs[i]) == rank(ys[i])
  {
    assert |multiset(xs)| == |multiset(ys)|;
    forall i | 0 <= i < |xs| ensures rank(xs[i]) == rank(ys[i]) {
      RankAt(xs, ys, rank, i);
      RankAt(ys, xs, rank, i);
    }
  }

  lemma {:induction false} RankAt<T(!new)>(xs: seq<T>, ys: seq<T>, rank: T -> int, i: nat)
    requires SortedBy(xs, rank) && SortedBy(ys, rank)
    requires multiset(xs) == multiset(ys) && i < |xs| == |ys|
    ensures rank(xs[i]) <= rank(ys[i])
  {
    if rank(ys[i]) < rank(xs[i]) {
      // The i + 1 first elements of ys all rank below xs[i], but only i of xs do.
      var low := ys[..i + 1];
      var rest := xs[i..];
      assert xs == xs[..i] + rest;
      assert ys == low + ys[i + 1..];
      assert multiset(xs) == multiset(xs[..i]) + multiset(rest);
      assert multiset(ys) == multiset(low) + multiset(ys[i + 1..]);
      assert multiset(low) <= multiset(xs[..i]) by {
        forall x ensures multiset(low)[x] <= multiset(xs[..i])[x] {
          if x in multiset(low) {
            var k :| 0 <= k < |low| && low[k] == x;
            assert rank(ys[k]) <= rank(ys[i]);
            assert forall m :: 0 <= m < |rest| ==> rest[m] == xs[i + m];
            assert x !in rest;
            assert x !in multiset(rest);
            assert multiset(low)[x] <= multiset(ys)[x] == multiset(xs)[x];
          }
        }
      }
      NotFewer(multiset(low), multiset(xs[..i]) - multiset(low), multiset(xs[..i]));
      assert false;
    }
  }

  lemma NotFewer<T>(a: multiset<T>, more: multiset<T>, b: multiset<T>)
    requires b == a + more
    ensures |a| <= |b|
  {
  }

  /** Filtering keeps a list sorted. */
  lemma {:induction false} KeepSorted<T(!new)>(xs: seq<T>, rank: T -> int, p: T -> bool)
    requires SortedBy(xs, rank)
    ensures SortedBy(Keep(xs, p), rank)
  {
    if xs != [] {
      KeepSorted(xs[1..], rank, p);
      var rest := Keep(xs[1..], p);
      KeepMembers(xs[1..], p);
      forall j | 0 <= j < |rest| ensures rank(xs[0]) <= rank(rest[j]) {
        assert rest[j] in rest;
        assert rest[j] in xs[1..];
      }
    }
  }

  /** Filters can be applied in either order. */
  lemma {:induction false} KeepCommutes<T(!new)>(xs: seq<T>, p: T -> bool, q: T -> bool)
    ensures Keep(Keep(xs, p), q) == Keep(Keep(xs, q), p)
  {
    if xs != [] {
      KeepCommutes(xs[1..], p, q);
      var kp, kq := Keep(xs[1..], p), Keep(xs[1..], q);
      assert p(xs[0]) ==> ([xs[0]] + kp)[1..] == kp;
      assert q(xs[0]) ==> ([xs[0]] + kq)[1..] == kq;
    }
  }

  /** The last element kept is the last one that satisfies the predicate. */
  lemma {:induction false} LastKept<T(!new)>(xs: seq<T>, p: T -> bool) returns (i: nat)
    requires Keep(xs, p) != []
    ensures i < |xs| && p(xs[i]) && xs[i] == Keep(xs, p)[|Keep(xs, p)| - 1]
    ensures forall j :: i < j < |xs| ==> !p(xs[j])
  {
    var rest := Keep(xs[1..], p);
    if rest != [] {
      var k := LastKept(xs[1..], p);
      i := k + 1;
      assert forall j :: i < j < |xs| ==> xs[j] == xs[1..][j - 1];
    } else {
      i := 0;
      KeepMembers(xs[1..], p);
      forall j | 0 < j < |xs| ensures !p(xs[j]) {
        assert xs[j] == xs[1..][j - 1];
        assert xs[j] in xs[1..];
        assert xs[j] !in rest;
      }
    }
  }

  function OfRank<T>(rank: T -> int, k: int): T -> bool {
    (x: T) => rank(x) == k
  }

  lemma SomeRankPresent<T(!new)>(xs: seq<T>, rank: T -> int)
    requires xs != []
    ensures exists k :: Keep(xs, OfRank(rank, k)) != []
  {
    KeepMembers(xs, OfRank(rank, rank(xs[0])));
    assert xs[0] in Keep(xs, OfRank(rank, rank(xs[0])));
  }

  /** Sorted lists with the same elements at every rank, in the same order, are equal. */
  lemma {:induction false} SortedClassesEqual<T(!new)>(xs: seq<T>, ys: seq<T>, rank: T -> int)
    requires SortedBy(xs, rank) && SortedBy(ys, rank)
    requires forall k :: Keep(xs, OfRank(rank, k)) == Keep(ys, OfRank(rank, k))
    ensures xs == ys
  {
    if xs != [] {
      var k := rank(xs[0]);
      KeepMembers(xs, OfRank(rank, k));
      KeepMembers(ys, OfRank(rank, k));
      assert xs[0] in Keep(ys, OfRank(rank, k));
      var j := rank(ys[0]);
      KeepMembers(xs, OfRank(rank, j));
      KeepMembers(ys, OfRank(rank, j));
      assert ys[0] in Keep(xs, OfRank(rank, j));
      assert j == k;
      assert Keep(xs, OfRank(rank, k))[0] == xs[0] && Keep(ys, OfRank(rank, k))[0] == ys[0];
      forall m ensures Keep(xs[1..], OfRank(rank, m)) == Keep(ys[1..], OfRank(rank, m)) {
        assert Keep(xs, OfRank(rank, m)) == Keep(ys, OfRank(rank, m));
        if m == k {
          assert ([xs[0]] + Keep(xs[1..], OfRank(rank, m)))[1..] == Keep(xs[1..], OfRank(rank, m));
          assert ([ys[0]] + Keep(ys[1..], OfRank(rank, m)))[1..] == Keep(ys[1..], OfRank(rank, m));
        }
      }
      SortedClassesEqual(xs[1..], ys[1..], rank);
    } else if ys != [] {
      SomeRankPresent(ys, rank);
    }
  }

  function Both<T>(p: T -> bool, q: T -> bool): T -> bool {
    (x: T) => p(x) && q(x)
  }

  lemma {:induction false} LastIsKept<T(!new)>(xs: seq<T>, p: T -> bool)
    requires xs != [] && p(xs[|xs| - 1])
    ensures Keep(xs, p) != [] && Keep(xs, p)[|Keep(xs, p)| - 1] == xs[|xs| - 1]
  {
    var n := |xs| - 1;
    KeepConcat(xs[..n], [xs[n]], p);
    assert xs == xs[..n] + [xs[n]];
  }

  /** At one rank, sorting between two filters does not matter. */
  lemma SortBetweenFilters<T(!new)>(xs: seq<T>, f: T -> bool, rank: T -> int, p: T -> bool, k: int)
    ensures Keep(Keep(SortBy(Keep(xs, f), rank), p), OfRank(rank, k)) ==
            Keep(xs, Both(Both(f, p), OfRank(rank, k)))
  {
    var listed := Keep(xs, f);
    KeepCommutes(SortBy(listed, rank), p, OfRank(rank, k));
    SortStable(listed, rank, k);
    KeepCommutes(listed, OfRank(rank, k), p);
    KeepTwice(xs, f, p, Both(f, p));
    KeepTwice(xs, Both(f, p), OfRank(rank, k), Both(Both(f, p), OfRank(rank, k)));
  }

  lemma FilteredSorted<T(!new)>(xs: seq<T>, f: T -> bool, rank: T -> int, p: T -> bool)
    ensures SortedBy(Keep(SortBy(Keep(xs, f), rank), p), rank)
    ensures forall x :: x in xs && f(x) && p(x) ==> x in Keep(SortBy(Keep(xs, f), rank), p)
  {
    var listed := Keep(xs, f);
    SortMembers(listed, rank);
    SortSorted(listed, rank);
    KeepSorted(SortBy(listed, rank), rank, p);
    KeepMembers(xs, f);
    KeepMembers(SortBy(listed, rank), p);
  }

  /** Nothing that passes both filters ranks above the last of the sorted. */
  lemma LastRanksHighest<T(!new)>(xs: seq<T>, f: T -> bool, rank: T -> int, p: T -> bool, x: T)
    requires x in xs && f(x) && p(x)
    ensures var all := Keep(SortBy(Keep(xs, f), rank), p);
            all != [] && rank(x) <= rank(all[|all| - 1])
  {
    var all := Keep(SortBy(Keep(xs, f), rank), p);
    FilteredSorted(xs, f, rank, p);
    assert x in all;
    var k :| 0 <= k < |all| && all[k] == x;
  }

  /** Element `j` ranks below element `i`, or equally and does not come after it. */
  ghost predicate NotAfter<T>(xs: seq<T>, rank: T -> int, j: nat, i: nat)
    requires j < |xs| && i < |xs|
  {
    rank(xs[j]) < rank(xs[i]) || (rank(xs[j]) == rank(xs[i]) && j <= i)
  }

  /** Filter, sort, filter again and take the last: that is the last in input
      order among the passing elements of the highest rank. */
  lemma LastOfSorted<T(!new)>(xs: seq<T>, f: T -> bool, rank: T -> int, p: T -> bool, all: seq<T>) returns (i: nat)
    requires all == Keep(SortBy(Keep(xs, f), rank), p) && all != []
    ensures i < |xs| && xs[i] == all[|all| - 1] && f(xs[i]) && p(xs[i])
    ensures forall j: nat {:trigger NotAfter(xs, rank, j, i)} ::
        j < |xs| && f(xs[j]) && p(xs[j]) ==> NotAfter(xs, rank, j, i)
  {
    var last := all[|all| - 1];
    var passes := Both(Both(f, p), OfRank(rank, rank(last)));
    LastIsKept(all, OfRank(rank, rank(last)));
    SortBetweenFilters(xs, f, rank, p, rank(last));
    i := LastKept(xs, passes);
    forall j: nat | j < |xs| && f(xs[j]) && p(xs[j]) ensures NotAfter(xs, rank, j, i) {
      LastRanksHighest(xs, f, rank, p, xs[j]);
      assert j > i ==> !passes(xs[j]);
    }
  }

  /** Two filtered sorted lists that agree rank by rank are equal. */
  lemma FilteredClassesEqual<T(!new)>(xs: seq<T>, ys: seq<T>, rank: T -> int, p: T -> bool, q: T -> bool)
    requires SortedBy(xs, rank) && SortedBy(ys, rank)
    requires forall k :: Keep(Keep(xs, OfRank(rank, k)), p) == Keep(Keep(ys, OfRank(rank, k)), q)
    ensures Keep(xs, p) == Keep(ys, q)
  {
    KeepSorted(xs, rank, p);
    KeepSorted(ys, rank, q);
    forall k ensures Keep(Keep(xs, p), OfRank(rank, k)) == Keep(Keep(ys, q), OfRank(rank, k)) {
      KeepCommutes(xs, p, OfRank(rank, k));
      KeepCommutes(ys, q, OfRank(rank, k));
    }
    SortedClassesEqual(Keep(xs, p), Keep(ys, q), rank);
  }
}
