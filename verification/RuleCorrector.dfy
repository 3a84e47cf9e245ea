/**
 The rule-based corrector (app/correction/rule_based_corrector.py): choosing among overlapping dictionary matches, and
 splicing the chosen ones into the text. What the phrase patterns find is given; `lower` is the library's lower-casing.
 */
module RuleCorrector {
  import opened Sorting

  datatype Term = Term(id: string, canonical: string, policy: string, confidence: real, contextKeywords: seq<string>)

  datatype Action = Replaced | ForReview

  datatype Match = Match(start: nat, end: nat, original: string, term: Term, action: Action)

  datatype Occurrence = Occurrence(start: nat, end: nat)

  /** A phrase's term and the places where the phrase was found. */
  datatype Pattern = Pattern(term: Term, found: seq<Occurrence>)

  predicate FoundIn(text: string, found: seq<Occurrence>) {
    forall k :: 0 <= k < |found| ==> found[k].start < found[k].end <= |text|
  }

  predicate AllFoundIn(text: string, patterns: seq<Pattern>) {
    forall k :: 0 <= k < |patterns| ==> FoundIn(text, patterns[k].found)
  }

  // ---------------------------------------------------------------- what is done with one match

  predicate StandsAt(s: string, part: string, i: nat) {
    i + |part| <= |s| && s[i..i + |part|] == part
  }

  predicate Contains(s: string, part: string) {
    exists i :: 0 <= i <= |s| && StandsAt(s, part, i)
  }

  predicate HasContext(text: string, start: nat, end: nat, term: Term, window: nat, lower: string -> string)
    requires start <= end <= |text|
  {
    var left := if start < window then 0 else start - window;
    var right := if end + window > |text| then |text| else end + window;
    var context := lower(text[left..start] + " " + text[end..right]);
    exists k :: 0 <= k < |term.contextKeywords| && Contains(context, lower(term.contextKeywords[k]))
  }

  function DecideAction(text: string, start: nat, end: nat, term: Term, window: nat, lower: string -> string): Action
    requires start <= end <= |text|
  {
    if term.policy == "safe" then Replaced
    else if term.policy == "context_required" then
      if HasContext(text, start, end, term, window, lower) then Replaced else ForReview
    else ForReview
  }

  function MatchAt(text: string, o: Occurrence, term: Term, window: nat, lower: string -> string): Match
    requires o.start < o.end <= |text|
  {
    Match(o.start, o.end, text[o.start..o.end], term, DecideAction(text, o.start, o.end, term, window, lower))
  }

  // ---------------------------------------------------------------- candidates

  /** What identifies a candidate. */
  function Key(m: Match): (nat, nat, string) {
    (m.start, m.end, m.term.id)
  }

  function Keys(s: seq<Match>): set<(nat, nat, string)> {
    set m | m in s :: Key(m)
  }

  /** The first match of each key. */
  function AddNew(candidates: seq<Match>, m: Match): seq<Match> {
    if Key(m) in Keys(candidates) then candidates else candidates + [m]
  }

  function FromFound(text: string, before: seq<Match>, term: Term, found: seq<Occurrence>, window: nat,
                     lower: string -> string): seq<Match>
    requires FoundIn(text, found)
  {
    if found == [] then before
    else
      var last := |found| - 1;
      AddNew(FromFound(text, before, term, found[..last], window, lower),
             MatchAt(text, found[last], term, window, lower))
  }

  function Candidates(text: string, patterns: seq<Pattern>, window: nat, lower: string -> string): seq<Match>
    requires AllFoundIn(text, patterns)
  {
    if patterns == [] then []
    else
      var last := |patterns| - 1;
      FromFound(text, Candidates(text, patterns[..last], window, lower), patterns[last].term, patterns[last].found,
                window, lower)
  }

  // ---------------------------------------------------------------- selection

  /** String comparison by code point. */
  predicate TextLe(a: string, b: string) {
    a == "" || (b != "" && (a[0] < b[0] || (a[0] == b[0] && TextLe(a[1..], b[1..]))))
  }

  function Rank(a: Action): nat {
    if a.Replaced? then 0 else 1
  }

  /** By start; replacements before reviews; longer before shorter; then by term. */
  predicate ByPriority(a: Match, b: Match) {
    var la, lb := a.end - a.start, b.end - b.start;
    || a.start < b.start
    || (a.start == b.start && Rank(a.action) < Rank(b.action))
    || (a.start == b.start && a.action == b.action && la > lb)
    || (a.start == b.start && a.action == b.action && la == lb && TextLe(a.term.id, b.term.id))
  }

  function Cursor(selected: seq<Match>): int {
    if selected == [] then -1 else selected[|selected| - 1].end
  }

  function Select(candidates: seq<Match>): seq<Match> {
    if candidates == [] then []
    else
      var last := |candidates| - 1;
      var selected := Select(candidates[..last]);
      if candidates[last].start < Cursor(selected) then selected else selected + [candidates[last]]
  }

  lemma FoundStep(text: string, before: seq<Match>, term: Term, found: seq<Occurrence>, f: nat, window: nat,
                  lower: string -> string)
    requires FoundIn(text, found) && f < |found|
    ensures FromFound(text, before, term, found[..f + 1], window, lower)
         == AddNew(FromFound(text, before, term, found[..f], window, lower),
                   MatchAt(text, found[f], term, window, lower))
  {
    assert found[..f + 1][..f] == found[..f];
  }

  lemma KeysAppend(s: seq<Match>, m: Match)
    ensures Keys(s + [m]) == Keys(s) + {Key(m)}
  {
    assert forall x :: x in s + [m] <==> x in s || x == m;
  }

  /** `_collect_matches`. */
  method CollectMatches(text: string, patterns: seq<Pattern>, window: nat, lower: string -> string)
    returns (selected: seq<Match>)
    requires AllFoundIn(text, patterns)
    ensures selected == Select(StableSort(Candidates(text, patterns, window, lower), ByPriority))
  {
    var candidates: seq<Match> := [];
    var seen: set<(nat, nat, string)> := {};
    for p := 0 to |patterns|
      invariant candidates == Candidates(text, patterns[..p], window, lower)
      invariant seen == Keys(candidates)
    {
      var term, found := patterns[p].term, patterns[p].found;
      ghost var before := candidates;
      for f := 0 to |found|
        invariant candidates == FromFound(text, before, term, found[..f], window, lower)
        invariant seen == Keys(candidates)
      {
        var m := found[f];
        var action := DecideAction(text, m.start, m.end, term, window, lower);
        var key := (m.start, m.end, term.id);
        FoundStep(text, before, term, found, f, window, lower);
        KeysAppend(candidates, MatchAt(text, m, term, window, lower));
        if key in seen {
          continue;
        }
        candidates := candidates + [Match(m.start, m.end, text[m.start..m.end], term, action)];
        seen := seen + {key};
      }
      assert found[..|found|] == found;
      assert patterns[..p + 1][..p] == patterns[..p];
    }
    assert patterns[..|patterns|] == patterns;

    candidates := StableSort(candidates, ByPriority);
    selected := [];
    var cursor: int := -1;
    for c := 0 to |candidates|
      invariant selected == Select(candidates[..c])
      invariant cursor == Cursor(selected)
    {
      var candidate := candidates[c];
      assert candidates[..c + 1][..c] == candidates[..c];
      if candidate.start < cursor {
        continue;
      }
      selected := selected + [candidate];
      cursor := candidate.end;
    }
    assert candidates[..|candidates|] == candidates;
  }

  // ---------------------------------------------------------------- rendering

  datatype Log = Log(original: string, corrected: string, termId: string, policy: string, confidence: real,
                     start: nat, end: nat, action: Action)

  datatype Unmatched = Unmatched(text: string, reason: string, start: nat, end: nat)

  function LogOf(m: Match): Log {
    Log(m.original, m.term.canonical, m.term.id, m.term.policy, m.term.confidence, m.start, m.end, m.action)
  }

  function LogsOf(matches: seq<Match>): seq<Log> {
    seq(|matches|, k requires 0 <= k < |matches| => LogOf(matches[k]))
  }

  function UnmatchedOf(matches: seq<Match>): seq<Unmatched> {
    if matches == [] then []
    else
      var m := matches[|matches| - 1];
      UnmatchedOf(matches[..|matches| - 1])
      + if m.action.Replaced? then [] else [Unmatched(m.original, m.term.policy + ":" + m.term.id, m.start, m.end)]
  }

  /** What stands in the corrected text for a match. */
  function Output(m: Match): string {
    if m.action.Replaced? then m.term.canonical else m.original
  }

  /** Matches of `text`, in order and disjoint, none before `cursor`. */
  ghost predicate Fits(text: string, matches: seq<Match>, cursor: nat)
    decreases |matches|
  {
    if matches == [] then cursor <= |text|
    else
      var m := matches[0];
      && cursor <= m.start < m.end <= |text| && m.original == text[m.start..m.end]
      && Fits(text, matches[1..], m.end)
  }

  /** The text from `cursor` on with every match replaced by its output. */
  ghost function Splice(text: string, matches: seq<Match>, cursor: nat): string
    requires Fits(text, matches, cursor)
    decreases |matches|
  {
    if matches == [] then text[cursor..]
    else
      var m := matches[0];
      text[cursor..m.start] + Output(m) + Splice(text, matches[1..], m.end)
  }

  function Concat(parts: seq<string>): string {
    if parts == [] then "" else Concat(parts[..|parts| - 1]) + parts[|parts| - 1]
  }

  lemma ConcatAppend(parts: seq<string>, part: string)
    ensures Concat(parts + [part]) == Concat(parts) + part
  {
    assert (parts + [part])[..|parts|] == parts;
  }

  /** A gap, when there is one, and the output after it. */
  function WithPiece(parts: seq<string>, gap: string, output: string): seq<string> {
    (if gap == "" then parts else parts + [gap]) + [output]
  }

  lemma ConcatPiece(parts: seq<string>, gap: string, output: string)
    ensures Concat(WithPiece(parts, gap, output)) == Concat(parts) + gap + output
  {
    if gap != "" {
      ConcatAppend(parts, gap);
      ConcatAppend(parts + [gap], output);
    } else {
      ConcatAppend(parts, output);
    }
  }

  /** One turn of the loop moves the next gap and output from what is to come to what is done. */
  lemma SpliceStep(parts: seq<string>, text: string, matches: seq<Match>, k: nat, cursor: nat)
    requires k < |matches| && Fits(text, matches[k..], cursor)
    ensures cursor <= matches[k].start <= |text| && Fits(text, matches[k + 1..], matches[k].end)
    ensures Concat(WithPiece(parts, text[cursor..matches[k].start], Output(matches[k])))
            + Splice(text, matches[k + 1..], matches[k].end)
         == Concat(parts) + Splice(text, matches[k..], cursor)
  {
    var gap, output := text[cursor..matches[k].start], Output(matches[k]);
    assert matches[k..][1..] == matches[k + 1..];
    ConcatPiece(parts, gap, output);
    Regroup(Concat(parts), gap, output, Splice(text, matches[k + 1..], matches[k].end));
  }

  lemma Regroup(a: string, b: string, c: string, d: string)
    ensures a + b + c + d == a + (b + c + d)
  {
  }

  lemma LogsStep(matches: seq<Match>, k: nat)
    requires k < |matches|
    ensures LogsOf(matches[..k + 1]) == LogsOf(matches[..k]) + [LogOf(matches[k])]
    ensures var m := matches[k];
            UnmatchedOf(matches[..k + 1]) == UnmatchedOf(matches[..k])
              + if m.action.Replaced? then []
                else [Unmatched(m.original, m.term.policy + ":" + m.term.id, m.start, m.end)]
  {
    assert matches[..k + 1][..k] == matches[..k];
  }

  /** `_render_corrected_text`. */
  method RenderCorrectedText(text: string, matches: seq<Match>)
    returns (corrected: string, logs: seq<Log>, unmatched: seq<Unmatched>)
    requires Fits(text, matches, 0)
    ensures corrected == Splice(text, matches, 0)
    ensures logs == LogsOf(matches) && unmatched == UnmatchedOf(matches)
  {
    logs, unmatched := [], [];
    var segments: seq<string> := [];
    var cursor: nat := 0;
    for k := 0 to |matches|
      invariant Fits(text, matches[k..], cursor)
      invariant Concat(segments) + Splice(text, matches[k..], cursor) == Splice(text, matches, 0)
      invariant logs == LogsOf(matches[..k]) && unmatched == UnmatchedOf(matches[..k])
    {
      var m := matches[k];
      ghost var before := segments;
      SpliceStep(segments, text, matches, k, cursor);
      LogsStep(matches, k);
      if cursor < m.start {
        segments := segments + [text[cursor..m.start]];
      }
      logs := logs + [LogOf(m)];
      if m.action.Replaced? {
        segments := segments + [m.term.canonical];
      } else {
        segments := segments + [m.original];
        unmatched := unmatched + [Unmatched(m.original, m.term.policy + ":" + m.term.id, m.start, m.end)];
      }
      assert segments == WithPiece(before, text[cursor..m.start], Output(m));
      cursor := m.end;
    }
    assert matches[..|matches|] == matches;
    ConcatAppend(segments, text[cursor..]);
    if cursor < |text| {
      segments := segments + [text[cursor..]];
    }
    corrected := Concat(segments);
  }

  // ---------------------------------------------------------------- the corrector

  function ReplacedTerms(logs: seq<Log>): set<string> {
    set log | log in logs && log.action.Replaced? :: log.corrected
  }

  /** The replaced terms once each, in the order in which they were logged first. */
  function DistinctTerms(logs: seq<Log>): seq<string> {
    if logs == [] then []
    else
      var log, before := logs[|logs| - 1], DistinctTerms(logs[..|logs| - 1]);
      if log.action.ForReview? || log.corrected in before then before else before + [log.corrected]
  }

  /** `_protected_terms`. */
  function ProtectedTerms(logs: seq<Log>): seq<string> {
    StableSort(DistinctTerms(logs), TextLe)
  }

  datatype RuleResult = RuleResult(
    correctedText: string, logs: seq<Log>, protectedTerms: seq<string>, unmatched: seq<Unmatched>)

  /** What `correct` returns for the chosen matches. */
  ghost function ResultOf(text: string, matches: seq<Match>): RuleResult
    requires Fits(text, matches, 0)
  {
    RuleResult(Splice(text, matches, 0), LogsOf(matches), ProtectedTerms(LogsOf(matches)), UnmatchedOf(matches))
  }
}
