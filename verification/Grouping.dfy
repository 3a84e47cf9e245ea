/**
 Greedy grouping of weighted items under a limit, with a fixed gap between the items of a group. Splitting a segment
 into pieces (no gap) and packing pieces into chunks (a gap between pieces) are the same loop.
 */
module Grouping {

  function Sum<T>(items: seq<T>, weight: T -> nat): nat {
    if items == [] then 0 else weight(items[0]) + Sum(items[1..], weight)
  }

  /** What a group takes up: its items and the gaps between them. */
  function Cost<T>(group: seq<T>, weight: T -> nat, gap: nat): nat {
    Sum(group, weight) + if group == [] then 0 else gap * (|group| - 1)
  }

  function Flatten<T>(groups: seq<seq<T>>): seq<T> {
    if groups == [] then [] else groups[0] + Flatten(groups[1..])
  }

  /** The greedy groups of `current` followed by `rest`, when `current` is the open group. */
  function GreedyFrom<T>(current: seq<T>, rest: seq<T>, weight: T -> nat, gap: nat, limit: nat): seq<seq<T>>
    decreases |rest|
  {
    if rest == [] then (if current == [] then [] else [current])
    else if current != [] && Cost(current + [rest[0]], weight, gap) > limit then
      [current] + GreedyFrom([rest[0]], rest[1..], weight, gap, limit)
    else GreedyFrom(current + [rest[0]], rest[1..], weight, gap, limit)
  }

  function Greedy<T>(items: seq<T>, weight: T -> nat, gap: nat, limit: nat): seq<seq<T>> {
    GreedyFrom([], items, weight, gap, limit)
  }

  /** A group is allowed to exceed the limit only when it cannot be divided. */
  predicate Admissible<T>(group: seq<T>, weight: T -> nat, gap: nat, limit: nat) {
    |group| == 1 || (|group| > 1 && Cost(group, weight, gap) <= limit)
  }

  ghost predicate AllAdmissible<T>(groups: seq<seq<T>>, weight: T -> nat, gap: nat, limit: nat) {
    forall k {:trigger groups[k]} :: 0 <= k < |groups| ==> Admissible(groups[k], weight, gap, limit)
  }

  /** Group `h` could not also take the first item of the next one. */
  ghost predicate FullAt<T>(groups: seq<seq<T>>, weight: T -> nat, gap: nat, limit: nat, h: nat)
    requires h + 1 < |groups|
  {
    groups[h + 1] != [] && Cost(groups[h] + [groups[h + 1][0]], weight, gap) > limit
  }

  ghost predicate Maximal<T>(groups: seq<seq<T>>, weight: T -> nat, gap: nat, limit: nat) {
    forall h {:trigger FullAt(groups, weight, gap, limit, h)} :: 0 <= h < |groups| - 1 ==>
      FullAt(groups, weight, gap, limit, h)
  }

  // ---------------------------------------------------------------- sums

  lemma {:induction false} SumAppend<T>(a: seq<T>, b: seq<T>, weight: T -> nat)
    ensures Sum(a + b, weight) == Sum(a, weight) + Sum(b, weight)
  {
    if a == [] {
      assert a + b == b;
    } else {
      assert (a + b)[0] == a[0] && (a + b)[1..] == a[1..] + b;
      SumAppend(a[1..], b, weight);
    }
  }

  lemma SumOne<T>(x: T, weight: T -> nat)
    ensures Sum([x], weight) == weight(x)
  {
    assert [x][1..] == [];
  }

  /** Adding an item to a group costs the item and, unless the group was empty, one gap. */
  lemma CostAppend<T>(group: seq<T>, x: T, weight: T -> nat, gap: nat)
    ensures Cost(group + [x], weight, gap)
         == Cost(group, weight, gap) + weight(x) + (if group == [] then 0 else gap)
  {
    SumAppend(group, [x], weight);
    SumOne(x, weight);
    if group != [] {
      GapsAdd(gap, |group| - 1, 1);
    }
  }

  lemma GapsAdd(gap: nat, n: nat, extra: nat)
    ensures gap * (n + extra) == gap * n + gap * extra
    ensures gap * extra >= 0
  {
  }

  /** A part of a group costs no more than the group. */
  lemma CostOfPart<T>(a: seq<T>, part: seq<T>, b: seq<T>, weight: T -> nat, gap: nat)
    requires part != []
    ensures Cost(part, weight, gap) <= Cost(a + part + b, weight, gap)
  {
    SumAppend(a + part, b, weight);
    SumAppend(a, part, weight);
    GapsAdd(gap, |part| - 1, |a| + |b|);
  }

  // ---------------------------------------------------------------- flattening

  lemma {:induction false} FlattenAppend<T>(a: seq<seq<T>>, b: seq<seq<T>>)
    ensures Flatten(a + b) == Flatten(a) + Flatten(b)
  {
    if a == [] {
      assert a + b == b;
    } else {
      assert (a + b)[0] == a[0] && (a + b)[1..] == a[1..] + b;
      FlattenAppend(a[1..], b);
    }
  }

  lemma FlattenOne<T>(g: seq<T>)
    ensures Flatten([g]) == g
  {
    assert [g][1..] == [];
  }

  // ---------------------------------------------------------------- what greedy produces

  lemma {:induction false} GreedyKeepsItems<T>(current: seq<T>, rest: seq<T>, weight: T -> nat, gap: nat, limit: nat)
    ensures Flatten(GreedyFrom(current, rest, weight, gap, limit)) == current + rest
    decreases |rest|
  {
    if rest == [] {
      FlattenOne(current);
    } else if current != [] && Cost(current + [rest[0]], weight, gap) > limit {
      GreedyKeepsItems([rest[0]], rest[1..], weight, gap, limit);
      assert ([current] + GreedyFrom([rest[0]], rest[1..], weight, gap, limit))[1..]
          == GreedyFrom([rest[0]], rest[1..], weight, gap, limit);
      assert rest == [rest[0]] + rest[1..];
    } else {
      GreedyKeepsItems(current + [rest[0]], rest[1..], weight, gap, limit);
      assert current + [rest[0]] + rest[1..] == current + rest;
    }
  }

  /** The open group is the start of the first group produced. */
  lemma {:induction false} GreedyFirst<T>(current: seq<T>, rest: seq<T>, weight: T -> nat, gap: nat, limit: nat)
    requires current != []
    ensures var groups := GreedyFrom(current, rest, weight, gap, limit);
            groups != [] && |groups[0]| >= |current| && groups[0][..|current|] == current
    decreases |rest|
  {
    if rest != [] && !(Cost(current + [rest[0]], weight, gap) > limit) {
      var longer := current + [rest[0]];
      GreedyFirst(longer, rest[1..], weight, gap, limit);
      var g := GreedyFrom(longer, rest[1..], weight, gap, limit)[0];
      assert g[..|current|] == g[..|longer|][..|current|] == current;
    }
  }

  lemma {:induction false} GreedyAdmissible<T>(current: seq<T>, rest: seq<T>, weight: T -> nat, gap: nat, limit: nat)
    requires current == [] || Admissible(current, weight, gap, limit)
    ensures AllAdmissible(GreedyFrom(current, rest, weight, gap, limit), weight, gap, limit)
    decreases |rest|
  {
    if rest != [] {
      if current != [] && Cost(current + [rest[0]], weight, gap) > limit {
        GreedyAdmissible([rest[0]], rest[1..], weight, gap, limit);
      } else {
        GreedyAdmissible(current + [rest[0]], rest[1..], weight, gap, limit);
      }
    }
  }

  lemma {:induction false} GreedyMaximal<T>(current: seq<T>, rest: seq<T>, weight: T -> nat, gap: nat, limit: nat)
    ensures Maximal(GreedyFrom(current, rest, weight, gap, limit), weight, gap, limit)
    decreases |rest|
  {
    if rest != [] {
      if current != [] && Cost(current + [rest[0]], weight, gap) > limit {
        var tail := GreedyFrom([rest[0]], rest[1..], weight, gap, limit);
        GreedyMaximal([rest[0]], rest[1..], weight, gap, limit);
        GreedyFirst([rest[0]], rest[1..], weight, gap, limit);
        assert tail[0][0] == tail[0][..1][0] == rest[0];
        var groups := [current] + tail;
        forall h | 0 <= h < |groups| - 1 ensures FullAt(groups, weight, gap, limit, h) {
          if h > 0 {
            var g := h - 1;
            assert FullAt(tail, weight, gap, limit, g);
          }
        }
      } else {
        GreedyMaximal(current + [rest[0]], rest[1..], weight, gap, limit);
      }
    }
  }

  // ---------------------------------------------------------------- optimality

  /** How many items the first `k` groups hold. */
  function Taken<T>(groups: seq<seq<T>>, k: nat): nat
    requires k <= |groups|
  {
    |Flatten(groups[..k])|
  }

  /** Group `k` is the stretch of items between two counts. */
  lemma GroupIsStretch<T>(groups: seq<seq<T>>, k: nat)
    requires k < |groups|
    ensures var items := Flatten(groups);
            && Taken(groups, k + 1) == Taken(groups, k) + |groups[k]| <= |items|
            && groups[k] == items[Taken(groups, k)..Taken(groups, k + 1)]
  {
    assert groups == groups[..k + 1] + groups[k + 1..];
    assert groups[..k + 1] == groups[..k] + [groups[k]];
    FlattenAppend(groups[..k + 1], groups[k + 1..]);
    FlattenAppend(groups[..k], [groups[k]]);
    FlattenOne(groups[k]);
    var before, after := Flatten(groups[..k]), Flatten(groups[k + 1..]);
    assert Flatten(groups) == before + groups[k] + after;
  }

  lemma StretchCost<T>(items: seq<T>, a: nat, b: nat, c: nat, d: nat, weight: T -> nat, gap: nat)
    requires a <= b < c <= d <= |items|
    ensures Cost(items[b..c], weight, gap) <= Cost(items[a..d], weight, gap)
  {
    assert items[a..d] == items[a..b] + items[b..c] + items[c..d];
    CostOfPart(items[a..b], items[b..c], items[c..d], weight, gap);
  }

  /** A stretch that starts no earlier than one which could take no more does not end later either. */
  lemma CannotOvertake<T>(items: seq<T>, a: nat, b: nat, c: nat, d: nat, weight: T -> nat, gap: nat, limit: nat)
    requires c <= a < b <= |items| && c < d <= |items| && Admissible(items[c..d], weight, gap, limit)
    requires b < |items| ==> Cost(items[a..b + 1], weight, gap) > limit
    ensures d <= b
  {
    if b < d {
      StretchCost(items, c, a, b + 1, d, weight, gap);
    }
  }

  lemma StretchAndNext<T>(items: seq<T>, a: nat, b: nat, c: nat, group: seq<T>, next: seq<T>)
    requires a <= b < c <= |items| && group == items[a..b] && next == items[b..c]
    ensures group + [next[0]] == items[a..b + 1]
  {
  }

  lemma FullStretch<T>(group: seq<T>, next: seq<T>, weight: T -> nat, gap: nat, limit: nat, items: seq<T>,
                       a: nat, b: nat, c: nat)
    requires next != [] && Cost(group + [next[0]], weight, gap) > limit
    requires a <= b < c <= |items| && group == items[a..b] && next == items[b..c]
    ensures Cost(items[a..b + 1], weight, gap) > limit
  {
    StretchAndNext(items, a, b, c, group, next);
  }

  lemma NextIsThere<T>(groups: seq<seq<T>>, k: nat)
    requires k < |groups| && Taken(groups, k + 1) < |Flatten(groups)|
    ensures k + 1 < |groups|
  {
    assert groups[..|groups|] == groups;
  }

  lemma FullGroup<T>(groups: seq<seq<T>>, weight: T -> nat, gap: nat, limit: nat, k: nat)
    requires Maximal(groups, weight, gap, limit) && k + 1 < |groups|
    ensures groups[k + 1] != [] && Cost(groups[k] + [groups[k + 1][0]], weight, gap) > limit
  {
    assert FullAt(groups, weight, gap, limit, k);
  }

  /** Group `k` of a maximal grouping could not take the next item. */
  lemma GroupIsFull<T>(groups: seq<seq<T>>, weight: T -> nat, gap: nat, limit: nat, k: nat)
    requires Maximal(groups, weight, gap, limit) && k < |groups|
    requires Taken(groups, k + 1) < |Flatten(groups)|
    ensures Taken(groups, k) <= Taken(groups, k + 1)
    ensures Cost(Flatten(groups)[Taken(groups, k)..Taken(groups, k + 1) + 1], weight, gap) > limit
  {
    NextIsThere(groups, k);
    var n := k + 1;
    FullGroup(groups, weight, gap, limit, k);
    GroupIsStretch(groups, k);
    GroupIsStretch(groups, n);
    FullStretch(groups[k], groups[n], weight, gap, limit, Flatten(groups), Taken(groups, k), Taken(groups, n),
                Taken(groups, n + 1));
  }

  /** Greedy stays ahead: after `k` groups a maximal grouping has taken at least as much as any admissible one. */
  lemma {:induction false} StaysAhead<T>(groups: seq<seq<T>>, other: seq<seq<T>>, weight: T -> nat, gap: nat,
                                         limit: nat, k: nat)
    requires Flatten(groups) == Flatten(other)
    requires AllAdmissible(groups, weight, gap, limit) && Maximal(groups, weight, gap, limit)
    requires AllAdmissible(other, weight, gap, limit)
    requires k <= |groups| && k <= |other|
    ensures Taken(groups, k) >= Taken(other, k)
  {
    if k > 0 {
      var h := k - 1;
      StaysAhead(groups, other, weight, gap, limit, h);
      assert Admissible(groups[h], weight, gap, limit);
      GroupIsStretch(groups, h);
      if Taken(groups, k) < |Flatten(groups)| {
        GroupIsFull(groups, weight, gap, limit, h);
      }
      GroupIsStretch(other, h);
      assert Admissible(other[h], weight, gap, limit);
      CannotOvertake(Flatten(groups), Taken(groups, h), Taken(groups, k), Taken(other, h), Taken(other, k), weight, gap,
                     limit);
    }
  }

  /** A maximal admissible grouping uses the fewest groups of all admissible groupings of the same items. */
  lemma MaximalIsFewest<T>(groups: seq<seq<T>>, other: seq<seq<T>>, weight: T -> nat, gap: nat, limit: nat)
    requires Flatten(groups) == Flatten(other)
    requires AllAdmissible(groups, weight, gap, limit) && Maximal(groups, weight, gap, limit)
    requires AllAdmissible(other, weight, gap, limit)
    ensures |groups| <= |other|
  {
    if |other| < |groups| {
      var k := |other|;
      assert Admissible(groups[k], weight, gap, limit);
      assert other[..k] == other;
      StaysAhead(groups, other, weight, gap, limit, k);
      GroupIsStretch(groups, k);
    }
  }

  /** The greedy grouping is optimal. */
  lemma GreedyIsFewest<T>(items: seq<T>, other: seq<seq<T>>, weight: T -> nat, gap: nat, limit: nat)
    requires Flatten(other) == items && AllAdmissible(other, weight, gap, limit)
    ensures |Greedy(items, weight, gap, limit)| <= |other|
  {
    GreedyKeepsItems([], items, weight, gap, limit);
    GreedyAdmissible([], items, weight, gap, limit);
    GreedyMaximal([], items, weight, gap, limit);
    assert [] + items == items;
    MaximalIsFewest(Greedy(items, weight, gap, limit), other, weight, gap, limit);
  }

  /** Group `k` of a greedy grouping is a non-empty stretch of the items. */
  lemma GreedyStretch<T>(items: seq<T>, weight: T -> nat, gap: nat, limit: nat, k: nat)
    requires k < |Greedy(items, weight, gap, limit)|
    ensures var groups := Greedy(items, weight, gap, limit);
            && Admissible(groups[k], weight, gap, limit)
            && Taken(groups, k) < Taken(groups, k + 1) <= |items|
            && groups[k] == items[Taken(groups, k)..Taken(groups, k + 1)]
            && (k == 0 ==> Taken(groups, k) == 0)
            && (k == |groups| - 1 ==> Taken(groups, k + 1) == |items|)
  {
    var groups := Greedy(items, weight, gap, limit);
    GreedyKeepsItems([], items, weight, gap, limit);
    assert [] + items == items;
    GreedyAdmissible([], items, weight, gap, limit);
    assert Admissible(groups[k], weight, gap, limit);
    GroupIsStretch(groups, k);
    assert groups[..|groups|] == groups;
  }

  lemma GreedyNotEmpty<T>(items: seq<T>, weight: T -> nat, gap: nat, limit: nat)
    requires items != []
    ensures Greedy(items, weight, gap, limit) != []
  {
    GreedyFirst([items[0]], items[1..], weight, gap, limit);
    assert [] + [items[0]] == [items[0]];
  }
}
