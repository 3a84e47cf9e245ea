/** A stable sort, for the two places where the source calls the library's. */
module Sorting {

  ghost predicate TotalOrder<T(!new)>(le: (T, T) -> bool) {
    && (forall a, b :: le(a, b) || le(b, a))
    && (forall a, b, c :: le(a, b) && le(b, c) ==> le(a, c))
  }

  ghost predicate Sorted<T>(s: seq<T>, le: (T, T) -> bool) {
    forall i, j :: 0 <= i < j < |s| ==> le(s[i], s[j])
  }

  /** Puts `x` behind everything not greater than it. */
  function Insert<T>(s: seq<T>, x: T, le: (T, T) -> bool): seq<T> {
    if s == [] then [x]
    else if le(s[|s| - 1], x) then s + [x]
    else Insert(s[..|s| - 1], x, le) + [s[|s| - 1]]
  }

  function StableSort<T>(s: seq<T>, le: (T, T) -> bool): seq<T> {
    if s == [] then [] else Insert(StableSort(s[..|s| - 1], le), s[|s| - 1], le)
  }

  lemma {:induction false} InsertMultiset<T>(s: seq<T>, x: T, le: (T, T) -> bool)
    ensures multiset(Insert(s, x, le)) == multiset(s) + multiset{x}
  {
    if s != [] && !le(s[|s| - 1], x) {
      InsertMultiset(s[..|s| - 1], x, le);
      assert s == s[..|s| - 1] + [s[|s| - 1]];
    }
  }

  lemma {:induction false} InsertBelow<T(!new)>(s: seq<T>, x: T, le: (T, T) -> bool, bound: T)
    requires le(x, bound) && forall k :: 0 <= k < |s| ==> le(s[k], bound)
    ensures forall k :: 0 <= k < |Insert(s, x, le)| ==> le(Insert(s, x, le)[k], bound)
  {
    if s != [] && !le(s[|s| - 1], x) {
      InsertBelow(s[..|s| - 1], x, le, bound);
    }
  }

  lemma {:induction false} InsertSorted<T(!new)>(s: seq<T>, x: T, le: (T, T) -> bool)
    requires TotalOrder(le) && Sorted(s, le)
    ensures Sorted(Insert(s, x, le), le)
  {
    if s != [] {
      var init, last := s[..|s| - 1], s[|s| - 1];
      if le(last, x) {
        forall k | 0 <= k < |s| ensures le(s[k], x) {
          assert k < |s| - 1 ==> le(s[k], last);
        }
      } else {
        assert le(x, last);
        InsertSorted(init, x, le);
        InsertBelow(init, x, le, last);
      }
    }
  }

  lemma {:induction false} SortOrders<T(!new)>(s: seq<T>, le: (T, T) -> bool)
    requires TotalOrder(le)
    ensures Sorted(StableSort(s, le), le)
  {
    if s != [] {
      SortOrders(s[..|s| - 1], le);
      InsertSorted(StableSort(s[..|s| - 1], le), s[|s| - 1], le);
    }
  }

  lemma {:induction false} SortPermutes<T>(s: seq<T>, le: (T, T) -> bool)
    ensures multiset(StableSort(s, le)) == multiset(s)
  {
    if s != [] {
      var init, last := s[..|s| - 1], s[|s| - 1];
      SortPermutes(init, le);
      InsertMultiset(StableSort(init, le), last, le);
      assert s == init + [last];
    }
  }

  /** The result is ordered and holds the same items. */
  lemma SortIsSorted<T(!new)>(s: seq<T>, le: (T, T) -> bool)
    requires TotalOrder(le)
    ensures Sorted(StableSort(s, le), le)
    ensures multiset(StableSort(s, le)) == multiset(s)
  {
    SortOrders(s, le);
    SortPermutes(s, le);
  }

  lemma SameMembers<T>(a: seq<T>, b: seq<T>, x: T)
    requires multiset(a) == multiset(b)
    ensures x in a <==> x in b
  {
    assert x in a <==> x in multiset(a);
    assert x in b <==> x in multiset(b);
  }

  /** An ordered sequence is left alone. */
  lemma {:induction false} SortOfSorted<T>(s: seq<T>, le: (T, T) -> bool)
    requires Sorted(s, le)
    ensures StableSort(s, le) == s
  {
    if s != [] {
      var init, last := s[..|s| - 1], s[|s| - 1];
      SortOfSorted(init, le);
      assert s == init + [last];
      if init != [] {
        assert le(s[|s| - 2], s[|s| - 1]);
      }
    }
  }

  /** Where a new item goes: behind everything not greater than it. */
  lemma {:induction false} InsertPlace<T(!new)>(s: seq<T>, x: T, le: (T, T) -> bool) returns (p: nat)
    ensures p <= |s| && Insert(s, x, le) == s[..p] + [x] + s[p..]
    ensures (p > 0 ==> le(s[p - 1], x)) && (p < |s| ==> !le(s[p], x))
  {
    if s == [] || le(s[|s| - 1], x) {
      p := |s|;
    } else {
      p := InsertPlace(s[..|s| - 1], x, le);
      assert s[p..] == s[..|s| - 1][p..] + [s[|s| - 1]];
    }
  }

  /** Item `i` comes before item `j`: it is smaller, or equivalent and earlier. */
  predicate Precedes<T>(s: seq<T>, le: (T, T) -> bool, i: nat, j: nat)
    requires i < |s| && j < |s|
  {
    le(s[i], s[j]) && (le(s[j], s[i]) ==> i < j)
  }

  /** `at` lists the places of the items of `s` in order. */
  ghost predicate IsOrder<T>(s: seq<T>, le: (T, T) -> bool, at: seq<nat>) {
    && |at| == |s| && (forall k :: 0 <= k < |at| ==> at[k] < |s|)
    && (forall i :: 0 <= i < |s| ==> i in at)
    && forall a, b {:trigger Precedes(s, le, at[a], at[b])} :: 0 <= a < b < |at| ==> Precedes(s, le, at[a], at[b])
  }

  lemma OrderExactly<T(!new)>(s: seq<T>, le: (T, T) -> bool, at: seq<nat>, a: nat, b: nat)
    requires IsOrder(s, le, at) && a < |at| && b < |at|
    ensures Precedes(s, le, at[a], at[b]) <==> a < b
  {
    if a < b {
      assert Precedes(s, le, at[a], at[b]);
    } else if b < a {
      assert Precedes(s, le, at[b], at[a]);
    }
  }

  lemma OrderExtended<T(!new)>(s: seq<T>, x: T, le: (T, T) -> bool, before: seq<nat>, p: nat)
    requires TotalOrder(le) && IsOrder(s, le, before) && p <= |before|
    requires p > 0 ==> le(s[before[p - 1]], x)
    requires p < |before| ==> !le(s[before[p]], x)
    ensures IsOrder(s + [x], le, before[..p] + [|s|] + before[p..])
  {
    var all, at := s + [x], before[..p] + [|s|] + before[p..];
    forall a, b | 0 <= a < b < |at| ensures Precedes(all, le, at[a], at[b]) {
      if a < p <= b {
        assert a < p - 1 ==> Precedes(s, le, before[a], before[p - 1]);
      }
      if a != p && b != p {
        assert Precedes(s, le, before[if a < p then a else a - 1], before[if b < p then b else b - 1]);
      } else if a == p {
        assert b - 1 > p ==> Precedes(s, le, before[p], before[b - 1]);
      }
    }
    forall i | 0 <= i < |all| ensures i in at {
      if i < |s| {
        assert i in before[..p] + before[p..] by {
          assert before == before[..p] + before[p..];
        }
      }
    }
  }

  /** The sort lists the items in that order. */
  lemma {:induction false} SortPlaces<T(!new)>(s: seq<T>, le: (T, T) -> bool) returns (at: seq<nat>)
    requires TotalOrder(le)
    ensures IsOrder(s, le, at)
    ensures |StableSort(s, le)| == |s| && forall k :: 0 <= k < |s| ==> StableSort(s, le)[k] == s[at[k]]
  {
    if s == [] {
      at := [];
    } else {
      var init, x := s[..|s| - 1], s[|s| - 1];
      var before := SortPlaces(init, le);
      var sorted := StableSort(init, le);
      var p := InsertPlace(sorted, x, le);
      OrderExtended(init, x, le, before, p);
      at := before[..p] + [|init|] + before[p..];
      assert s == init + [x];
    }
  }

  /** The items equivalent to `x`, in order. */
  function Alike<T>(s: seq<T>, x: T, le: (T, T) -> bool): seq<T> {
    if s == [] then []
    else
      var last := s[|s| - 1];
      Alike(s[..|s| - 1], x, le) + if le(last, x) && le(x, last) then [last] else []
  }

  lemma AlikeAppend<T>(s: seq<T>, y: T, x: T, le: (T, T) -> bool)
    ensures Alike(s + [y], x, le) == Alike(s, x, le) + if le(y, x) && le(x, y) then [y] else []
  {
    assert (s + [y])[..|s|] == s;
  }

  lemma {:induction false} InsertAlike<T(!new)>(s: seq<T>, y: T, x: T, le: (T, T) -> bool)
    requires TotalOrder(le)
    ensures Alike(Insert(s, y, le), x, le) == Alike(s, x, le) + if le(y, x) && le(x, y) then [y] else []
  {
    if s == [] || le(s[|s| - 1], y) {
      AlikeAppend(s, y, x, le);
    } else {
      var init, last := s[..|s| - 1], s[|s| - 1];
      InsertAlike(init, y, x, le);
      AlikeAppend(Insert(init, y, le), last, x, le);
      assert le(y, last) && !(le(last, x) && le(x, last) && le(y, x) && le(x, y));
    }
  }

  /** Stability: equivalent items keep their order. */
  lemma {:induction false} SortIsStable<T(!new)>(s: seq<T>, x: T, le: (T, T) -> bool)
    requires TotalOrder(le)
    ensures Alike(StableSort(s, le), x, le) == Alike(s, x, le)
  {
    if s != [] {
      SortIsStable(s[..|s| - 1], x, le);
      InsertAlike(StableSort(s[..|s| - 1], le), s[|s| - 1], x, le);
    }
  }
}
