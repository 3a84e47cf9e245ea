/** Which matches are chosen, and what a correction can be traced back to (rule_based_corrector.py:56-119). */
module RuleCorrectorTheorems {
  import opened Sorting
  import opened RuleCorrector
  import Splicing

  // ---------------------------------------------------------------- the priority order

  lemma {:induction false} TextLeTotal(a: string, b: string)
    ensures TextLe(a, b) || TextLe(b, a)
    ensures TextLe(a, b) && TextLe(b, a) ==> a == b
  {
    if a != "" && b != "" {
      TextLeTotal(a[1..], b[1..]);
      assert a == [a[0]] + a[1..] && b == [b[0]] + b[1..];
    }
  }

  lemma {:induction false} TextLeTransitive(a: string, b: string, c: string)
    requires TextLe(a, b) && TextLe(b, c)
    ensures TextLe(a, c)
  {
    if a != "" && a[0] == b[0] && b[0] == c[0] {
      TextLeTransitive(a[1..], b[1..], c[1..]);
    }
  }

  lemma PriorityTotal(a: Match, b: Match)
    ensures ByPriority(a, b) || ByPriority(b, a)
  {
    TextLeTotal(a.term.id, b.term.id);
  }

  lemma PriorityTransitive(a: Match, b: Match, c: Match)
    requires ByPriority(a, b) && ByPriority(b, c)
    ensures ByPriority(a, c)
  {
    if TextLe(a.term.id, b.term.id) && TextLe(b.term.id, c.term.id) {
      TextLeTransitive(a.term.id, b.term.id, c.term.id);
    }
  }

  lemma PriorityIsOrder()
    ensures TotalOrder(ByPriority)
  {
    forall a: Match, b: Match ensures ByPriority(a, b) || ByPriority(b, a) {
      PriorityTotal(a, b);
    }
    forall a: Match, b: Match, c: Match | ByPriority(a, b) && ByPriority(b, c) ensures ByPriority(a, c) {
      PriorityTransitive(a, b, c);
    }
  }

  /** Two candidates that neither precedes are one key. */
  lemma PriorityTie(a: Match, b: Match)
    requires ByPriority(a, b) && ByPriority(b, a)
    ensures Key(a) == Key(b)
  {
    TextLeTotal(a.term.id, b.term.id);
  }

  /** The strings agree up to some place, where the first ends or has the smaller character. */
  ghost predicate Alphabetical(a: string, b: string) {
    exists k: nat {:trigger a[..k]} ::
      k <= |a| && k <= |b| && a[..k] == b[..k] && (k == |a| || (k < |b| && a[k] < b[k]))
  }

  lemma {:induction false} TextLeExactly(a: string, b: string)
    ensures TextLe(a, b) <==> Alphabetical(a, b)
  {
    if a == "" {
      assert a[..0] == b[..0];
    } else if b != "" && a[0] == b[0] {
      TextLeExactly(a[1..], b[1..]);
      AlphabeticalTail(a, b);
    } else if b != "" && a[0] < b[0] {
      assert a[..0] == b[..0];
    } else if Alphabetical(a, b) {
      AlphabeticalHead(a, b);
    }
  }

  lemma AlphabeticalHead(a: string, b: string)
    requires a != "" && Alphabetical(a, b)
    ensures b != "" && a[0] <= b[0]
  {
    var k: nat :| k <= |a| && k <= |b| && a[..k] == b[..k] && (k == |a| || (k < |b| && a[k] < b[k]));
    if k > 0 {
      assert a[0] == a[..k][0] == b[..k][0];
    }
  }

  /** A first character in common makes no difference. */
  lemma AlphabeticalTail(a: string, b: string)
    requires a != "" && b != "" && a[0] == b[0]
    ensures Alphabetical(a, b) <==> Alphabetical(a[1..], b[1..])
  {
    var c, d := a[1..], b[1..];
    if Alphabetical(a, b) {
      var k: nat :| k <= |a| && k <= |b| && a[..k] == b[..k] && (k == |a| || (k < |b| && a[k] < b[k]));
      if k > 0 {
        assert c[..k - 1] == a[..k][1..] == b[..k][1..] == d[..k - 1];
      }
    }
    if Alphabetical(c, d) {
      var k: nat :| k <= |c| && k <= |d| && c[..k] == d[..k] && (k == |c| || (k < |d| && c[k] < d[k]));
      assert a[..k + 1] == [a[0]] + c[..k] && b[..k + 1] == [b[0]] + d[..k];
    }
  }

  /** `d` starts before `c`. Of two that start together, a replacement comes before a review, then the longer before the
      shorter, then the one with the smaller term. */
  ghost predicate Precedes(d: Match, c: Match) {
    || d.start < c.start
    || (&& d.start == c.start
        && (|| (d.action.Replaced? && c.action.ForReview?)
            || (d.action == c.action && d.end > c.end)
            || (d.action == c.action && d.end == c.end && Alphabetical(d.term.id, c.term.id))))
  }

  lemma PriorityExactly(d: Match, c: Match)
    requires d.start <= d.end && c.start <= c.end
    ensures ByPriority(d, c) <==> Precedes(d, c)
  {
    TextLeExactly(d.term.id, c.term.id);
  }

  // ---------------------------------------------------------------- candidates

  ghost predicate Proper(text: string, m: Match) {
    m.start < m.end <= |text| && m.original == text[m.start..m.end]
  }

  ghost predicate DistinctKeys(s: seq<Match>) {
    forall i, j :: 0 <= i < j < |s| ==> Key(s[i]) != Key(s[j])
  }

  ghost predicate AllProper(text: string, s: seq<Match>) {
    forall k {:trigger s[k]} :: 0 <= k < |s| ==> Proper(text, s[k])
  }

  /** The places one term was found at. */
  ghost function PlacesOf(found: seq<Occurrence>, id: string): set<(nat, nat, string)> {
    set o | o in found :: (o.start, o.end, id)
  }

  lemma PlacesOfAppend(found: seq<Occurrence>, last: Occurrence, id: string)
    ensures PlacesOf(found + [last], id) == PlacesOf(found, id) + {(last.start, last.end, id)}
  {
    assert forall o :: o in found + [last] <==> o in found || o == last;
  }

  lemma {:induction false} FromFoundKeys(text: string, before: seq<Match>, term: Term, found: seq<Occurrence>,
                                         window: nat, lower: string -> string)
    requires FoundIn(text, found) && DistinctKeys(before) && AllProper(text, before)
    ensures var s := FromFound(text, before, term, found, window, lower);
            && DistinctKeys(s) && AllProper(text, s)
            && Keys(s) == Keys(before) + PlacesOf(found, term.id)
  {
    if found == [] {
      assert PlacesOf(found, term.id) == {};
    } else {
      var last := |found| - 1;
      FromFoundKeys(text, before, term, found[..last], window, lower);
      var s := FromFound(text, before, term, found[..last], window, lower);
      var m := MatchAt(text, found[last], term, window, lower);
      assert found == found[..last] + [found[last]];
      PlacesOfAppend(found[..last], found[last], term.id);
      AddNewKeys(text, s, m);
    }
  }

  lemma AddNewKeys(text: string, s: seq<Match>, m: Match)
    requires DistinctKeys(s) && AllProper(text, s) && Proper(text, m)
    ensures DistinctKeys(AddNew(s, m)) && AllProper(text, AddNew(s, m))
    ensures Keys(AddNew(s, m)) == Keys(s) + {Key(m)}
  {
    if Key(m) !in Keys(s) {
      var after := s + [m];
      assert forall x :: x in after <==> x in s || x == m;
    }
  }

  /** Every place and term some pattern found. */
  ghost function Places(patterns: seq<Pattern>): set<(nat, nat, string)> {
    set p, o | p in patterns && o in p.found :: (o.start, o.end, p.term.id)
  }

  lemma PlacesAppend(patterns: seq<Pattern>, last: Pattern)
    ensures Places(patterns + [last]) == Places(patterns) + PlacesOf(last.found, last.term.id)
  {
    assert forall p :: p in patterns + [last] <==> p in patterns || p == last;
  }

  /** There is exactly one candidate per place and term that some pattern found, and nothing else. */
  lemma {:induction false} CandidateKeys(text: string, patterns: seq<Pattern>, window: nat, lower: string -> string)
    requires AllFoundIn(text, patterns)
    ensures var s := Candidates(text, patterns, window, lower);
            DistinctKeys(s) && AllProper(text, s) && Keys(s) == Places(patterns)
  {
    if patterns != [] {
      var last := |patterns| - 1;
      var init := patterns[..last];
      CandidateKeys(text, init, window, lower);
      FromFoundKeys(text, Candidates(text, init, window, lower), patterns[last].term, patterns[last].found, window,
                    lower);
      PlacesAppend(init, patterns[last]);
      assert patterns == init + [patterns[last]];
    }
  }

  // ---------------------------------------------------------------- selection

  /** `c` lies across the end of the better placed `d`. */
  ghost predicate Blocks(d: Match, c: Match) {
    ByPriority(d, c) && d != c && c.start < d.end
  }

  ghost predicate Blocked(selected: set<Match>, c: Match) {
    exists d :: d in selected && Blocks(d, c)
  }

  /** A candidate is chosen exactly when no chosen one blocks it. */
  ghost predicate IsSelection(candidates: set<Match>, selected: set<Match>) {
    && selected <= candidates
    && forall c :: c in candidates ==> (c in selected <==> !Blocked(selected, c))
  }

  ghost function Members(s: seq<Match>): set<Match> {
    set m | m in s
  }

  /** Sorted, without two equal keys. */
  ghost predicate Queue(text: string, s: seq<Match>) {
    Sorted(s, ByPriority) && DistinctKeys(s) && AllProper(text, s)
  }

  lemma InitQueue(text: string, s: seq<Match>)
    requires Queue(text, s) && s != []
    ensures Queue(text, s[..|s| - 1])
    ensures forall d {:trigger d in s[..|s| - 1]} :: d in s[..|s| - 1] ==> d != s[|s| - 1] && ByPriority(d, s[|s| - 1])
  {
    var init := s[..|s| - 1];
    assert forall k {:trigger init[k]} :: 0 <= k < |init| ==> Proper(text, s[k]);
  }

  /** Chosen matches end in order, and the last ends last. */
  ghost predicate Disjoint(s: seq<Match>) {
    forall i, j :: 0 <= i < j < |s| ==> s[i].end <= s[j].start
  }

  lemma {:induction false} SelectDisjoint(text: string, s: seq<Match>)
    requires Queue(text, s)
    ensures var sel := Select(s);
            Disjoint(sel) && AllProper(text, sel) && forall m :: m in sel ==> m in s && m.end <= Cursor(sel)
  {
    if s != [] {
      InitQueue(text, s);
      SelectDisjoint(text, s[..|s| - 1]);
      assert Proper(text, s[|s| - 1]);
    }
  }

  lemma ExtendSelection(candidates: set<Match>, selected: set<Match>, last: Match)
    requires IsSelection(candidates, selected) && last !in candidates
    requires forall c :: c in candidates ==> !Blocks(last, c)
    ensures IsSelection(candidates + {last}, if Blocked(selected, last) then selected else selected + {last})
  {
    var after := if Blocked(selected, last) then selected else selected + {last};
    forall c | c in candidates ensures Blocked(after, c) <==> Blocked(selected, c) {
      if d :| d in selected && Blocks(d, c) {
        assert d in after;
      }
    }
    assert !Blocks(last, last);
  }

  lemma LastCovers(text: string, s: seq<Match>)
    requires Queue(text, s) && s != []
    ensures var init, last := s[..|s| - 1], s[|s| - 1];
            Blocked(Members(Select(init)), last) <==> last.start < Cursor(Select(init))
  {
    var init, last := s[..|s| - 1], s[|s| - 1];
    InitQueue(text, s);
    SelectDisjoint(text, init);
    var before := Select(init);
    if last.start < Cursor(before) {
      assert Blocks(before[|before| - 1], last);
    }
  }

  lemma MembersStep(s: seq<Match>)
    requires s != []
    ensures var init, last := s[..|s| - 1], s[|s| - 1];
            && Members(s) == Members(init) + {last}
            && Members(Select(s)) == if last.start < Cursor(Select(init)) then Members(Select(init))
                                     else Members(Select(init)) + {last}
  {
    var init, last := s[..|s| - 1], s[|s| - 1];
    assert s == init + [last];
  }

  lemma {:induction false} SelectIsKernel(text: string, s: seq<Match>)
    requires Queue(text, s)
    ensures IsSelection(Members(s), Members(Select(s)))
  {
    if s != [] {
      var init, last := s[..|s| - 1], s[|s| - 1];
      InitQueue(text, s);
      SelectIsKernel(text, init);
      LastCovers(text, s);
      MembersStep(s);
      LastIsBehind(text, s);
      ExtendSelection(Members(init), Members(Select(init)), last);
    }
  }

  /** The last candidate is new and blocks none of the others. */
  lemma LastIsBehind(text: string, s: seq<Match>)
    requires Queue(text, s) && s != []
    ensures var init, last := s[..|s| - 1], s[|s| - 1];
            last !in Members(init) && forall c :: c in Members(init) ==> !Blocks(last, c)
  {
    var init, last := s[..|s| - 1], s[|s| - 1];
    InitQueue(text, s);
    assert s == init + [last];
    forall c | c in Members(init) ensures !Blocks(last, c) {
      NotBoth(text, init, last, c);
    }
  }

  lemma NotBoth(text: string, init: seq<Match>, last: Match, c: Match)
    requires Queue(text, init + [last]) && c in init
    ensures !ByPriority(last, c)
  {
    var s := init + [last];
    var k :| 0 <= k < |init| && init[k] == c;
    assert Key(s[k]) != Key(s[|init|]) && ByPriority(s[k], s[|init|]);
    if ByPriority(last, c) {
      PriorityTie(last, c);
    }
  }

  lemma BlockerIsEarlier(text: string, s: seq<Match>, j: nat, i: nat)
    requires Queue(text, s) && j < |s| && i < |s| && Blocks(s[j], s[i])
    ensures j < i
  {
    if j > i {
      assert ByPriority(s[i], s[j]) && Key(s[i]) != Key(s[j]);
      PriorityTie(s[i], s[j]);
    }
  }

  lemma BlockedAlike(text: string, s: seq<Match>, a: set<Match>, b: set<Match>, i: nat)
    requires Queue(text, s) && i < |s| && a <= Members(s)
    requires forall j :: 0 <= j < i ==> (s[j] in a ==> s[j] in b)
    ensures Blocked(a, s[i]) ==> Blocked(b, s[i])
  {
    if d :| d in a && Blocks(d, s[i]) {
      assert d in Members(s);
      var j: nat :| j < |s| && s[j] == d;
      BlockerIsEarlier(text, s, j, i);
      assert d in b && Blocks(d, s[i]);
    }
  }

  /** Two selections agree on every candidate. */
  lemma {:induction false} SelectionsAgree(text: string, s: seq<Match>, a: set<Match>, b: set<Match>, i: nat)
    requires Queue(text, s) && IsSelection(Members(s), a) && IsSelection(Members(s), b) && i < |s|
    ensures s[i] in a <==> s[i] in b
  {
    forall j | 0 <= j < i ensures s[j] in a <==> s[j] in b {
      SelectionsAgree(text, s, a, b, j);
    }
    BlockedAlike(text, s, a, b, i);
    BlockedAlike(text, s, b, a, i);
    assert s[i] in Members(s);
  }

  /** So the choice is the only one of its kind. */
  lemma SelectionUnique(text: string, s: seq<Match>, other: set<Match>)
    requires Queue(text, s) && IsSelection(Members(s), other)
    ensures other == Members(Select(s))
  {
    SelectIsKernel(text, s);
    var chosen := Members(Select(s));
    forall c | c in Members(s) ensures c in other <==> c in chosen {
      var i: nat :| i < |s| && s[i] == c;
      SelectionsAgree(text, s, other, chosen, i);
    }
  }

  // ---------------------------------------------------------------- the collector

  lemma TwiceCounted(s: seq<Match>, i: nat, j: nat)
    requires i < j < |s| && s[i] == s[j]
    ensures multiset(s)[s[i]] >= 2
  {
    assert s == s[..i] + [s[i]] + s[i + 1..j] + [s[j]] + s[j + 1..];
  }

  lemma {:induction false} CountedOnce(s: seq<Match>, m: Match)
    requires DistinctKeys(s)
    ensures multiset(s)[m] <= 1
  {
    if s != [] {
      var init, last := s[..|s| - 1], s[|s| - 1];
      CountedOnce(init, m);
      assert s == init + [last];
      if m == last {
        forall k | 0 <= k < |init| ensures init[k] != m {
          assert Key(s[k]) != Key(s[|s| - 1]);
        }
      }
    }
  }

  lemma SortedQueue(text: string, s: seq<Match>)
    requires DistinctKeys(s) && AllProper(text, s)
    ensures Queue(text, StableSort(s, ByPriority))
    ensures Members(StableSort(s, ByPriority)) == Members(s)
  {
    PriorityIsOrder();
    SortIsSorted(s, ByPriority);
    var r := StableSort(s, ByPriority);
    forall m ensures m in r <==> m in s {
      SameMembers(r, s, m);
    }
    AllProperAlike(text, s, r);
    forall i, j | 0 <= i < j < |r| ensures Key(r[i]) != Key(r[j]) {
      CountedOnce(s, r[i]);
      if r[i] == r[j] {
        TwiceCounted(r, i, j);
      } else if Key(r[i]) == Key(r[j]) {
        SameKeySame(s, r[i], r[j]);
      }
    }
  }

  lemma AllProperAlike(text: string, a: seq<Match>, b: seq<Match>)
    requires AllProper(text, a) && forall m :: m in b ==> m in a
    ensures AllProper(text, b)
  {
    forall k | 0 <= k < |b| ensures Proper(text, b[k]) {
      assert b[k] in a;
    }
  }

  lemma SameKeySame(s: seq<Match>, a: Match, b: Match)
    requires DistinctKeys(s) && a in s && b in s && Key(a) == Key(b)
    ensures a == b
  {
  }

  lemma {:induction false} DisjointFits(text: string, s: seq<Match>, cursor: nat)
    requires Disjoint(s) && AllProper(text, s) && cursor <= |text| && (s != [] ==> cursor <= s[0].start)
    ensures Fits(text, s, cursor)
    decreases |s|
  {
    if s != [] {
      assert Proper(text, s[0]);
      assert forall k {:trigger s[1..][k]} :: 0 <= k < |s| - 1 ==> Proper(text, s[k + 1]);
      DisjointFits(text, s[1..], s[0].end);
    }
  }

  /** What `_collect_matches` returns: ordered, disjoint matches; a candidate is left out exactly when a chosen one of
      better place and priority covers its start; and no other set of candidates has that property. */
  lemma CollectedMatches(text: string, patterns: seq<Pattern>, window: nat, lower: string -> string,
                         selected: seq<Match>)
    requires AllFoundIn(text, patterns)
    requires selected == Select(StableSort(Candidates(text, patterns, window, lower), ByPriority))
    ensures Fits(text, selected, 0) && Disjoint(selected)
    ensures Keys(Candidates(text, patterns, window, lower)) == Places(patterns)
    ensures forall sel :: IsSelection(Members(Candidates(text, patterns, window, lower)), sel)
                     <==> sel == Members(selected)
  {
    var candidates := Candidates(text, patterns, window, lower);
    CandidateKeys(text, patterns, window, lower);
    SortedQueue(text, candidates);
    var queue := StableSort(candidates, ByPriority);
    SelectDisjoint(text, queue);
    DisjointFits(text, selected, 0);
    SelectIsKernel(text, queue);
    forall sel | IsSelection(Members(candidates), sel) ensures sel == Members(selected) {
      SelectionUnique(text, queue, sel);
    }
  }

  /** Another chosen match that goes first reaches over the candidate's start. */
  ghost predicate Covered(selected: seq<Match>, c: Match) {
    exists d {:trigger d in selected} :: d in selected && d != c && Precedes(d, c) && c.start < d.end
  }

  /** A candidate is left out exactly when it is covered. */
  lemma ChosenExactly(text: string, patterns: seq<Pattern>, window: nat, lower: string -> string,
                      selected: seq<Match>, c: Match)
    requires AllFoundIn(text, patterns)
    requires selected == Select(StableSort(Candidates(text, patterns, window, lower), ByPriority))
    requires c in Candidates(text, patterns, window, lower)
    ensures c in selected <==> !Covered(selected, c)
    ensures forall d :: d in selected ==> d in Candidates(text, patterns, window, lower)
  {
    var candidates := Candidates(text, patterns, window, lower);
    CandidateKeys(text, patterns, window, lower);
    CollectedMatches(text, patterns, window, lower, selected);
    assert IsSelection(Members(candidates), Members(selected));
    assert c in Members(candidates);
    forall d | d in selected
      ensures d in candidates && (Blocks(d, c) <==> d != c && Precedes(d, c) && c.start < d.end)
    {
      assert d in Members(selected);
      assert d in Members(candidates);
      ProperMember(text, candidates, d);
      ProperMember(text, candidates, c);
      PriorityExactly(d, c);
    }
  }

  lemma ProperMember(text: string, s: seq<Match>, m: Match)
    requires AllProper(text, s) && m in s
    ensures Proper(text, m)
  {
  }

  ghost predicate FindsPlace(p: Pattern, m: Match) {
    p.term.id == m.term.id && Occurrence(m.start, m.end) in p.found
  }

  /** The match has the term of the first pattern that found a term of its id at its place. */
  ghost predicate FoundFirst(patterns: seq<Pattern>, m: Match) {
    exists p {:trigger patterns[p]} :: 0 <= p < |patterns| && FindsPlace(patterns[p], m) && m.term == patterns[p].term
      && forall q :: 0 <= q < p ==> !FindsPlace(patterns[q], m)
  }

  lemma {:induction false} FromFoundNew(text: string, before: seq<Match>, term: Term, found: seq<Occurrence>,
                                        window: nat, lower: string -> string, m: Match)
    requires FoundIn(text, found) && m in FromFound(text, before, term, found, window, lower) && m !in before
    ensures m.term == term && Occurrence(m.start, m.end) in found && Key(m) !in Keys(before)
  {
    var last := |found| - 1;
    var s := FromFound(text, before, term, found[..last], window, lower);
    if m in s {
      FromFoundNew(text, before, term, found[..last], window, lower, m);
    } else {
      FromFoundKeeps(text, before, term, found[..last], window, lower);
      assert found[last] == Occurrence(m.start, m.end);
    }
  }

  lemma {:induction false} FromFoundKeeps(text: string, before: seq<Match>, term: Term, found: seq<Occurrence>,
                                          window: nat, lower: string -> string)
    requires FoundIn(text, found)
    ensures Keys(before) <= Keys(FromFound(text, before, term, found, window, lower))
  {
    if found != [] {
      var last := |found| - 1;
      FromFoundKeeps(text, before, term, found[..last], window, lower);
      KeysAppend(FromFound(text, before, term, found[..last], window, lower),
                 MatchAt(text, found[last], term, window, lower));
    }
  }

  lemma FoundFirstAlso(patterns: seq<Pattern>, last: Pattern, m: Match)
    requires FoundFirst(patterns, m)
    ensures FoundFirst(patterns + [last], m)
  {
    var p :| 0 <= p < |patterns| && FindsPlace(patterns[p], m) && m.term == patterns[p].term
      && forall q :: 0 <= q < p ==> !FindsPlace(patterns[q], m);
    var all := patterns + [last];
    assert all[p] == patterns[p];
  }

  lemma FoundFirstNow(patterns: seq<Pattern>, last: Pattern, m: Match)
    requires FindsPlace(last, m) && m.term == last.term && Key(m) !in Places(patterns)
    ensures FoundFirst(patterns + [last], m)
  {
    var all := patterns + [last];
    forall q | 0 <= q < |patterns| ensures !FindsPlace(all[q], m) {
      assert patterns[q] in patterns;
    }
    assert all[|patterns|] == last;
  }

  /** Where two entries share an id, the earlier one decides. */
  lemma {:induction false} CandidateTerms(text: string, patterns: seq<Pattern>, window: nat, lower: string -> string,
                                          m: Match)
    requires AllFoundIn(text, patterns) && m in Candidates(text, patterns, window, lower)
    ensures FoundFirst(patterns, m)
  {
    var last := |patterns| - 1;
    var init := patterns[..last];
    var before := Candidates(text, init, window, lower);
    assert patterns == init + [patterns[last]];
    if m in before {
      CandidateTerms(text, init, window, lower, m);
      FoundFirstAlso(init, patterns[last], m);
    } else {
      CandidateKeys(text, init, window, lower);
      FromFoundNew(text, before, patterns[last].term, patterns[last].found, window, lower, m);
      FoundFirstNow(init, patterns[last], m);
    }
  }

  /** The matches `_collect_matches` chooses. */
  ghost function ChosenMatches(text: string, patterns: seq<Pattern>, window: nat, lower: string -> string)
    : (matches: seq<Match>)
    requires AllFoundIn(text, patterns)
    ensures Fits(text, matches, 0) && Disjoint(matches)
  {
    var matches := Select(StableSort(Candidates(text, patterns, window, lower), ByPriority));
    CollectedMatches(text, patterns, window, lower, matches);
    matches
  }

  /** `correct`. */
  method Correct(text: string, patterns: seq<Pattern>, window: nat, lower: string -> string)
    returns (result: RuleResult)
    requires AllFoundIn(text, patterns)
    ensures result == ResultOf(text, ChosenMatches(text, patterns, window, lower))
  {
    var selected := CollectMatches(text, patterns, window, lower);
    CollectedMatches(text, patterns, window, lower, selected);
    var corrected, logs, unmatched := RenderCorrectedText(text, selected);
    result := RuleResult(corrected, logs, ProtectedTerms(logs), unmatched);
  }

  // ---------------------------------------------------------------- what may be replaced

  /** A match is replaced exactly when its term is safe, or needs context and has it. */
  ghost predicate RightlyDecided(text: string, m: Match, window: nat, lower: string -> string) {
    && m.start <= m.end <= |text|
    && (m.action.Replaced? <==>
        || m.term.policy == "safe"
        || (m.term.policy == "context_required" && HasContext(text, m.start, m.end, m.term, window, lower)))
  }

  function Mapped(s: string, f: char -> char): string {
    seq(|s|, k requires 0 <= k < |s| => f(s[k]))
  }

  /** The keyword stands at `i`, up to the case of its characters. */
  predicate StandsFolded(text: string, keyword: string, f: char -> char, i: nat) {
    i + |keyword| <= |text| && forall k :: 0 <= k < |keyword| ==> f(text[i + k]) == f(keyword[k])
  }

  /** It stands within the window before the match or within the window after it. */
  ghost predicate StandsNear(text: string, start: nat, end: nat, keyword: string, window: nat, f: char -> char) {
    exists i: nat {:trigger StandsFolded(text, keyword, f, i)} ::
      && StandsFolded(text, keyword, f, i)
      && ((start <= i + window && i + |keyword| <= start) || (end <= i && i + |keyword| <= end + window))
  }

  /** Two texts around a blank. */
  function Around(left: string, right: string): string {
    left + " " + right
  }

  lemma MappedSlice(s: string, f: char -> char, i: nat, n: nat)
    requires i + n <= |s|
    ensures Mapped(s, f)[i..i + n] == Mapped(s[i..i + n], f)
  {
  }

  lemma StandsMapped(s: string, keyword: string, f: char -> char, i: nat)
    ensures StandsAt(Mapped(s, f), Mapped(keyword, f), i) <==> StandsFolded(s, keyword, f, i)
  {
    if i + |keyword| <= |s| {
      MappedSlice(s, f, i, |keyword|);
      assert Mapped(s[i..i + |keyword|], f) == Mapped(keyword, f)
        <==> forall k :: 0 <= k < |keyword| ==> f(s[i..i + |keyword|][k]) == f(keyword[k]) by {
        if Mapped(s[i..i + |keyword|], f) == Mapped(keyword, f) {
          forall k | 0 <= k < |keyword| ensures f(s[i..i + |keyword|][k]) == f(keyword[k]) {
            assert Mapped(s[i..i + |keyword|], f)[k] == Mapped(keyword, f)[k];
          }
        }
      }
    }
  }

  /** A keyword that stands across the blank has a blank itself. */
  lemma StandsAcross(left: string, right: string, keyword: string, f: char -> char, i: nat)
    requires f(' ') == ' ' && StandsFolded(Around(left, right), keyword, f, i)
    requires i <= |left| < i + |keyword|
    ensures f(keyword[|left| - i]) == ' '
  {
    assert Around(left, right)[i + (|left| - i)] == ' ';
  }

  /** What the term asks for: one of its keywords near the match. */
  ghost predicate KeywordNear(text: string, start: nat, end: nat, term: Term, window: nat, f: char -> char) {
    exists k {:trigger term.contextKeywords[k]} :: 0 <= k < |term.contextKeywords|
      && StandsNear(text, start, end, term.contextKeywords[k], window, f)
  }

  lemma LeftChar(text: string, a: nat, start: nat, right: string, x: nat)
    requires a <= start <= |text| && x < start - a
    ensures |Around(text[a..start], right)| == start - a + 1 + |right|
    ensures Around(text[a..start], right)[x] == text[a + x]
  {
  }

  lemma RightChar(text: string, end: nat, b: nat, left: string, x: nat)
    requires end <= b <= |text| && x < b - end
    ensures |Around(left, text[end..b])| == |left| + 1 + (b - end)
    ensures Around(left, text[end..b])[|left| + 1 + x] == text[end + x]
  {
    assert text[end..b][x] == text[end + x];
  }

  lemma InLeft(text: string, a: nat, start: nat, right: string, keyword: string, f: char -> char, i: nat)
    requires a <= start <= |text| && i + |keyword| <= start - a
    ensures StandsFolded(Around(text[a..start], right), keyword, f, i) <==> StandsFolded(text, keyword, f, a + i)
  {
    var around, at := Around(text[a..start], right), a + i;
    assert |around| == start - a + 1 + |right|;
    forall k {:trigger keyword[k]} | 0 <= k < |keyword| ensures around[i + k] == text[at + k] {
      LeftChar(text, a, start, right, i + k);
    }
  }

  lemma InRight(text: string, end: nat, b: nat, left: string, keyword: string, f: char -> char, i: nat)
    requires end <= b <= |text| && i + |keyword| <= b - end
    ensures StandsFolded(Around(left, text[end..b]), keyword, f, |left| + 1 + i)
       <==> StandsFolded(text, keyword, f, end + i)
  {
    var around, from, at := Around(left, text[end..b]), |left| + 1 + i, end + i;
    assert |around| == |left| + 1 + (b - end);
    forall k {:trigger keyword[k]} | 0 <= k < |keyword| ensures around[from + k] == text[at + k] {
      RightChar(text, end, b, left, i + k);
    }
  }

  lemma FoldedInWindows(text: string, a: nat, start: nat, end: nat, b: nat, keyword: string, f: char -> char, i: nat)
    returns (at: nat)
    requires a <= start <= end <= b <= |text|
    requires f(' ') == ' ' && forall k :: 0 <= k < |keyword| ==> f(keyword[k]) != ' '
    requires StandsFolded(Around(text[a..start], text[end..b]), keyword, f, i)
    ensures StandsFolded(text, keyword, f, at)
    ensures (a <= at && at + |keyword| <= start) || (end <= at && at + |keyword| <= b)
  {
    var n := start - a;
    if i + |keyword| <= n {
      InLeft(text, a, start, text[end..b], keyword, f, i);
      at := a + i;
    } else if n < i {
      InRight(text, end, b, text[a..start], keyword, f, i - n - 1);
      at := end + (i - n - 1);
    } else {
      StandsAcross(text[a..start], text[end..b], keyword, f, i);
      assert false;
    }
  }

  lemma NearInWindows(text: string, a: nat, start: nat, end: nat, b: nat, keyword: string, f: char -> char, at: nat)
    returns (i: nat)
    requires a <= start <= end <= b <= |text| && StandsFolded(text, keyword, f, at)
    requires (a <= at && at + |keyword| <= start) || (end <= at && at + |keyword| <= b)
    ensures StandsFolded(Around(text[a..start], text[end..b]), keyword, f, i)
  {
    if a <= at && at + |keyword| <= start {
      i := at - a;
      InLeft(text, a, start, text[end..b], keyword, f, i);
    } else {
      i := start - a + 1 + (at - end);
      InRight(text, end, b, text[a..start], keyword, f, at - end);
    }
  }

  /** When case folding goes character by character and no keyword holds a blank, the context asked for is there exactly
      when a keyword stands, up to case, within the window before the match or within the window after it. */
  lemma ContextExactly(text: string, start: nat, end: nat, term: Term, window: nat, lower: string -> string,
                       f: char -> char)
    requires start <= end <= |text| && f(' ') == ' ' && forall s {:trigger lower(s)} :: lower(s) == Mapped(s, f)
    requires forall k, c :: 0 <= k < |term.contextKeywords| && 0 <= c < |term.contextKeywords[k]| ==>
               f(term.contextKeywords[k][c]) != ' '
    ensures HasContext(text, start, end, term, window, lower) <==> KeywordNear(text, start, end, term, window, f)
  {
    var a := if start < window then 0 else start - window;
    var b := if end + window > |text| then |text| else end + window;
    var around := Around(text[a..start], text[end..b]);
    forall k | 0 <= k < |term.contextKeywords|
      ensures Contains(lower(around), lower(term.contextKeywords[k]))
         <==> StandsNear(text, start, end, term.contextKeywords[k], window, f)
    {
      KeywordExactly(text, a, start, end, b, term.contextKeywords[k], window, f);
    }
  }

  lemma KeywordExactly(text: string, a: nat, start: nat, end: nat, b: nat, keyword: string, window: nat,
                       f: char -> char)
    requires a <= start <= end <= b <= |text|
    requires a == (if start < window then 0 else start - window)
    requires b == (if end + window > |text| then |text| else end + window)
    requires f(' ') == ' ' && forall k :: 0 <= k < |keyword| ==> f(keyword[k]) != ' '
    ensures Contains(Mapped(Around(text[a..start], text[end..b]), f), Mapped(keyword, f))
       <==> StandsNear(text, start, end, keyword, window, f)
  {
    var around := Around(text[a..start], text[end..b]);
    if Contains(Mapped(around, f), Mapped(keyword, f)) {
      var i :| 0 <= i <= |Mapped(around, f)| && StandsAt(Mapped(around, f), Mapped(keyword, f), i);
      StandsMapped(around, keyword, f, i);
      var at := FoldedInWindows(text, a, start, end, b, keyword, f, i);
    }
    if StandsNear(text, start, end, keyword, window, f) {
      var at: nat :| StandsFolded(text, keyword, f, at)
        && ((start <= at + window && at + |keyword| <= start) || (end <= at && at + |keyword| <= end + window));
      var i := NearInWindows(text, a, start, end, b, keyword, f, at);
      StandsMapped(around, keyword, f, i);
    }
  }

  lemma {:induction false} FromFoundDecided(text: string, before: seq<Match>, term: Term, found: seq<Occurrence>,
                                            window: nat, lower: string -> string)
    requires FoundIn(text, found)
    requires forall m :: m in before ==> RightlyDecided(text, m, window, lower)
    ensures forall m :: m in FromFound(text, before, term, found, window, lower) ==>
              RightlyDecided(text, m, window, lower)
  {
    if found != [] {
      var last := |found| - 1;
      FromFoundDecided(text, before, term, found[..last], window, lower);
      assert RightlyDecided(text, MatchAt(text, found[last], term, window, lower), window, lower);
    }
  }

  lemma {:induction false} CandidatesDecided(text: string, patterns: seq<Pattern>, window: nat, lower: string -> string)
    requires AllFoundIn(text, patterns)
    ensures forall m :: m in Candidates(text, patterns, window, lower) ==> RightlyDecided(text, m, window, lower)
  {
    if patterns != [] {
      var last := |patterns| - 1;
      CandidatesDecided(text, patterns[..last], window, lower);
      FromFoundDecided(text, Candidates(text, patterns[..last], window, lower), patterns[last].term,
                       patterns[last].found, window, lower);
    }
  }

  /** The corrector never replaces what needs review. */
  lemma ChosenDecided(text: string, patterns: seq<Pattern>, window: nat, lower: string -> string, selected: seq<Match>)
    requires AllFoundIn(text, patterns)
    requires selected == Select(StableSort(Candidates(text, patterns, window, lower), ByPriority))
    ensures forall m :: m in selected ==> RightlyDecided(text, m, window, lower)
  {
    CollectedMatches(text, patterns, window, lower, selected);
    CandidatesDecided(text, patterns, window, lower);
    assert IsSelection(Members(Candidates(text, patterns, window, lower)), Members(selected));
    forall m | m in selected ensures RightlyDecided(text, m, window, lower) {
      assert m in Members(selected);
    }
  }

  /** Matches of the term may be replaced; those of any other policy are left for review. */
  predicate MayReplace(term: Term) {
    term.policy == "safe" || term.policy == "context_required"
  }

  lemma {:induction false} FromFoundReviewed(text: string, before: seq<Match>, term: Term, found: seq<Occurrence>,
                                             window: nat, lower: string -> string)
    requires FoundIn(text, found) && !MayReplace(term)
    requires forall m :: m in before ==> m.action.ForReview?
    ensures forall m :: m in FromFound(text, before, term, found, window, lower) ==> m.action.ForReview?
  {
    if found != [] {
      FromFoundReviewed(text, before, term, found[..|found| - 1], window, lower);
    }
  }

  lemma {:induction false} CandidatesReviewed(text: string, patterns: seq<Pattern>, window: nat,
                                              lower: string -> string)
    requires AllFoundIn(text, patterns) && forall k :: 0 <= k < |patterns| ==> !MayReplace(patterns[k].term)
    ensures forall m :: m in Candidates(text, patterns, window, lower) ==> m.action.ForReview?
  {
    if patterns != [] {
      var last := |patterns| - 1;
      CandidatesReviewed(text, patterns[..last], window, lower);
      FromFoundReviewed(text, Candidates(text, patterns[..last], window, lower), patterns[last].term,
                        patterns[last].found, window, lower);
    }
  }

  /** A dictionary whose terms all need review changes no text, whatever its canonical forms are: everything found is
      reported, nothing is written or protected. */
  lemma ReviewOnlyKeepsText(text: string, patterns: seq<Pattern>, window: nat, lower: string -> string,
                            matches: seq<Match>)
    requires AllFoundIn(text, patterns) && forall k :: 0 <= k < |patterns| ==> !MayReplace(patterns[k].term)
    requires matches == ChosenMatches(text, patterns, window, lower)
    ensures Splice(text, matches, 0) == text && ReplacedTerms(LogsOf(matches)) == {}
    ensures |UnmatchedOf(matches)| == |matches|
  {
    var candidates := Candidates(text, patterns, window, lower);
    CollectedMatches(text, patterns, window, lower, matches);
    CandidatesReviewed(text, patterns, window, lower);
    assert IsSelection(Members(candidates), Members(matches));
    forall k | 0 <= k < |matches| ensures matches[k].action.ForReview? {
      assert matches[k] in Members(matches);
    }
    Splicing.ReviewedKeepText(text, matches, 0);
    AllReported(matches);
  }

  lemma {:induction false} AllReported(matches: seq<Match>)
    requires forall k :: 0 <= k < |matches| ==> matches[k].action.ForReview?
    ensures |UnmatchedOf(matches)| == |matches|
  {
    if matches != [] {
      AllReported(matches[..|matches| - 1]);
    }
  }

  // ---------------------------------------------------------------- logs and reports

  /** Every log says what stood there, what its term writes, and what was done. */
  ghost predicate IsLog(m: Match, log: Log) {
    && log.original == m.original && log.corrected == m.term.canonical && log.termId == m.term.id
    && log.policy == m.term.policy && log.confidence == m.term.confidence
    && log.start == m.start && log.end == m.end && log.action == m.action
  }

  /** The report of a match left for review, with its reason. */
  ghost predicate IsReport(m: Match, report: Unmatched) {
    && m.action.ForReview? && report.text == m.original && report.reason == m.term.policy + ":" + m.term.id
    && report.start == m.start && report.end == m.end
  }

  /** Report `u` is that of match `at[u]`, which comes after the match of the report before it. */
  ghost predicate ReportsAt(matches: seq<Match>, unmatched: seq<Unmatched>, at: seq<nat>, u: nat)
    requires u < |unmatched| && |at| == |unmatched|
  {
    at[u] < |matches| && IsReport(matches[at[u]], unmatched[u]) && (u > 0 ==> at[u - 1] < at[u])
  }

  ghost predicate Reports(matches: seq<Match>, unmatched: seq<Unmatched>, at: seq<nat>) {
    && |at| == |unmatched|
    && (forall u {:trigger ReportsAt(matches, unmatched, at, u)} :: 0 <= u < |unmatched| ==>
          ReportsAt(matches, unmatched, at, u))
    && (forall k {:trigger matches[k]} :: 0 <= k < |matches| && matches[k].action.ForReview? ==> k in at)
  }

  lemma ReportsAppend(matches: seq<Match>, unmatched: seq<Unmatched>, at: seq<nat>, m: Match, report: Unmatched)
    requires Reports(matches, unmatched, at)
    ensures m.action.Replaced? ==> Reports(matches + [m], unmatched, at)
    ensures IsReport(m, report) ==> Reports(matches + [m], unmatched + [report], at + [|matches|])
  {
    var all, longer := matches + [m], unmatched + [report];
    forall u | 0 <= u < |unmatched|
      ensures ReportsAt(all, unmatched, at, u) && ReportsAt(all, longer, at + [|matches|], u)
    {
      assert ReportsAt(matches, unmatched, at, u);
    }
    forall k | 0 <= k < |matches| && all[k].action.ForReview? ensures k in at && k in at + [|matches|] {
      assert matches[k].action.ForReview?;
    }
    if IsReport(m, report) && unmatched != [] {
      assert ReportsAt(matches, unmatched, at, |unmatched| - 1);
    }
  }

  /** One log per match, and one report for each match left for review, in order; `at` says where they come from. */
  lemma {:induction false} RenderedExactly(matches: seq<Match>) returns (at: seq<nat>)
    ensures |LogsOf(matches)| == |matches|
    ensures forall k {:trigger matches[k]} :: 0 <= k < |matches| ==> IsLog(matches[k], LogsOf(matches)[k])
    ensures Reports(matches, UnmatchedOf(matches), at)
  {
    if matches == [] {
      at := [];
    } else {
      var last := |matches| - 1;
      var init, m := matches[..last], matches[last];
      at := RenderedExactly(init);
      var report := Unmatched(m.original, m.term.policy + ":" + m.term.id, m.start, m.end);
      ReportsAppend(init, UnmatchedOf(init), at, m, report);
      assert init + [m] == matches;
      if m.action.ForReview? {
        at := at + [last];
      } else {
        assert UnmatchedOf(matches) == UnmatchedOf(init);
      }
    }
  }

  // ---------------------------------------------------------------- protected terms

  lemma {:induction false} DistinctTermsExact(logs: seq<Log>)
    ensures forall t :: t in DistinctTerms(logs) <==> t in ReplacedTerms(logs)
    ensures forall i, j :: 0 <= i < j < |DistinctTerms(logs)| ==> DistinctTerms(logs)[i] != DistinctTerms(logs)[j]
  {
    if logs != [] {
      var init, last := logs[..|logs| - 1], logs[|logs| - 1];
      DistinctTermsExact(init);
      assert logs == init + [last];
      forall t
        ensures t in ReplacedTerms(logs) <==> t in ReplacedTerms(init) || (last.action.Replaced? && t == last.corrected)
      {
        assert forall log :: log in logs <==> log in init || log == last;
      }
    }
  }

  lemma TextLeIsOrder()
    ensures TotalOrder(TextLe)
  {
    forall a: string, b: string ensures TextLe(a, b) || TextLe(b, a) {
      TextLeTotal(a, b);
    }
    forall a: string, b: string, c: string | TextLe(a, b) && TextLe(b, c) ensures TextLe(a, c) {
      TextLeTransitive(a, b, c);
    }
  }

  /** The protected terms are the canonical forms written into the text, once each and in order. */
  lemma ProtectedTermsExact(logs: seq<Log>)
    ensures Sorted(ProtectedTerms(logs), TextLe)
    ensures forall t :: t in ProtectedTerms(logs) <==> t in ReplacedTerms(logs)
    ensures forall i, j {:trigger ProtectedTerms(logs)[i], ProtectedTerms(logs)[j]} ::
              0 <= i < j < |ProtectedTerms(logs)| ==>
                ProtectedTerms(logs)[i] != ProtectedTerms(logs)[j]
                && Alphabetical(ProtectedTerms(logs)[i], ProtectedTerms(logs)[j])
  {
    TextLeIsOrder();
    DistinctTermsExact(logs);
    var terms := DistinctTerms(logs);
    SortIsSorted(terms, TextLe);
    forall t ensures t in StableSort(terms, TextLe) <==> t in terms {
      SameMembers(StableSort(terms, TextLe), terms, t);
    }
    var sorted := StableSort(terms, TextLe);
    forall i, j | 0 <= i < j < |sorted| ensures sorted[i] != sorted[j] && Alphabetical(sorted[i], sorted[j]) {
      TextLeExactly(sorted[i], sorted[j]);
      if sorted[i] == sorted[j] {
        TermTwice(sorted, i, j);
        TermOnce(terms, sorted[i]);
      }
    }
  }

  lemma TermTwice(terms: seq<string>, i: nat, j: nat)
    requires i < j < |terms| && terms[i] == terms[j]
    ensures multiset(terms)[terms[i]] >= 2
  {
    assert terms == terms[..i] + [terms[i]] + terms[i + 1..j] + [terms[j]] + terms[j + 1..];
  }

  lemma {:induction false} TermOnce(terms: seq<string>, t: string)
    requires forall i, j :: 0 <= i < j < |terms| ==> terms[i] != terms[j]
    ensures multiset(terms)[t] <= 1
  {
    if terms != [] {
      var init, last := terms[..|terms| - 1], terms[|terms| - 1];
      TermOnce(init, t);
      assert terms == init + [last];
      if t == last {
        assert t !in init;
      }
    }
  }
}
