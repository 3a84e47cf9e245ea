/** Corrections keep one line per segment on both paths, and every log finds its segment (service.py:34-226). */
module CorrectionTheorems {
  import opened Options
  import opened Text
  import opened Sorting
  import opened RuleCorrector
  import opened Splicing
  import opened RuleCorrectorTheorems
  import opened CorrectionService
  import Merger
  import MergerTheorems

  // ---------------------------------------------------------------- what the dictionary must provide

  /** A canonical form that is one non-empty line. */
  predicate OneLine(term: Term) {
    term.canonical != "" && BreakFree(term.canonical)
  }

  ghost predicate FoundInLines(text: string, found: seq<Occurrence>)
    requires FoundIn(text, found)
  {
    forall k {:trigger found[k]} :: 0 <= k < |found| ==> BreakFree(text[found[k].start..found[k].end])
  }

  /** Canonical forms that may be written are single lines, and no phrase was found across a line break. */
  ghost predicate Lineal(text: string, patterns: seq<Pattern>)
    requires AllFoundIn(text, patterns)
  {
    forall k {:trigger patterns[k]} :: 0 <= k < |patterns| ==>
      (MayReplace(patterns[k].term) ==> OneLine(patterns[k].term)) && FoundInLines(text, patterns[k].found)
  }

  lemma MatchAtInside(text: string, o: Occurrence, term: Term, window: nat, lower: string -> string)
    requires o.start < o.end <= |text| && (MayReplace(term) ==> OneLine(term)) && BreakFree(text[o.start..o.end])
    ensures InsideLine(MatchAt(text, o, term, window, lower))
  {
  }

  lemma {:induction false} FromFoundInside(text: string, before: seq<Match>, term: Term, found: seq<Occurrence>,
                                           window: nat, lower: string -> string)
    requires FoundIn(text, found) && (MayReplace(term) ==> OneLine(term)) && FoundInLines(text, found)
    requires forall m :: m in before ==> InsideLine(m)
    ensures forall m :: m in FromFound(text, before, term, found, window, lower) ==> InsideLine(m)
  {
    if found != [] {
      var last := |found| - 1;
      FromFoundInside(text, before, term, found[..last], window, lower);
      MatchAtInside(text, found[last], term, window, lower);
    }
  }

  lemma {:induction false} CandidatesInside(text: string, patterns: seq<Pattern>, window: nat, lower: string -> string)
    requires AllFoundIn(text, patterns) && Lineal(text, patterns)
    ensures forall m :: m in Candidates(text, patterns, window, lower) ==> InsideLine(m)
  {
    if patterns != [] {
      var last := |patterns| - 1;
      CandidatesInside(text, patterns[..last], window, lower);
      FromFoundInside(text, Candidates(text, patterns[..last], window, lower), patterns[last].term,
                      patterns[last].found, window, lower);
    }
  }

  /** The chosen matches then stay inside lines. */
  lemma ChosenInside(text: string, patterns: seq<Pattern>, window: nat, lower: string -> string, matches: seq<Match>)
    requires AllFoundIn(text, patterns) && Lineal(text, patterns)
    requires matches == ChosenMatches(text, patterns, window, lower)
    ensures InsideLines(matches)
  {
    var candidates := Candidates(text, patterns, window, lower);
    CollectedMatches(text, patterns, window, lower, matches);
    CandidatesInside(text, patterns, window, lower);
    assert IsSelection(Members(candidates), Members(matches));
    forall k | 0 <= k < |matches| ensures InsideLine(matches[k]) {
      assert matches[k] in Members(matches);
    }
  }

  // ---------------------------------------------------------------- the shape of the result

  /** The text `CorrectionService.Correct` settles on. */
  ghost predicate Chosen(raw: string, matches: seq<Match>, llm: Option<string>, minRatio: real, final: string,
                         applied: bool)
    requires Fits(raw, matches, 0)
  {
    (final, applied) == Settle(raw, ResultOf(raw, matches), llm, minRatio)
  }

  /** The final text has as many lines as the raw text, whether the model's answer was taken or not. Without it, each
      line is the correction of the raw line at the same index. */
  lemma ShapeKept(raw: string, matches: seq<Match>, llm: Option<string>, minRatio: real, final: string, applied: bool)
    requires Fits(raw, matches, 0) && InsideLines(matches)
    requires Chosen(raw, matches, llm, minRatio, final, applied)
    ensures |SplitLines(final)| == |SplitLines(raw)|
    ensures !applied ==> SplitLines(final) == LinesFrom(raw, matches, 0)
    ensures |LinesFrom(raw, matches, 0)| == |SplitLines(raw)|
  {
    LinesAreCorrected(raw, matches, 0);
    assert raw[0..] == raw;
  }

  /** When the number of lines is kept, whatever the dictionary and the text. The rules keep it exactly when the
      replacements write as many line breaks as they remove, where an end of the text that comes to lie within a line
      counts as one more, and a carriage return that comes to stand before a line feed as one less. A replaced match
      with a multi-line canonical form, or one found across a break, loses it unless others make up for it. */
  lemma ShapeKeptExactly(raw: string, matches: seq<Match>, llm: Option<string>, minRatio: real, final: string,
                         applied: bool)
    requires Fits(raw, matches, 0) && Chosen(raw, matches, llm, minRatio, final, applied)
    ensures |SplitLines(final)| == |SplitLines(raw)|
       <==> || applied
            || WrittenBreaks(matches) + OpenAfter(raw, matches) + Seams(raw, matches, 0, false, false)
               == RemovedBreaks(matches) + OpenEnd(raw) + Seams(raw, matches, 0, false, true)
  {
    SpliceBreaks(raw, matches);
    OpenAfterExactly(raw, matches);
    LineCount(raw);
    LineCount(Splice(raw, matches, 0));
  }

  /** When the last match ends before the text does, only the breaks count. */
  lemma ShapeLostExactly(raw: string, matches: seq<Match>, llm: Option<string>, minRatio: real, final: string,
                         applied: bool)
    requires Fits(raw, matches, 0) && Chosen(raw, matches, llm, minRatio, final, applied)
    requires matches != [] ==> matches[|matches| - 1].end < |raw|
    ensures |SplitLines(final)| != |SplitLines(raw)|
       <==> && !applied
            && WrittenBreaks(matches) + Seams(raw, matches, 0, false, false)
               != RemovedBreaks(matches) + Seams(raw, matches, 0, false, true)
  {
    ShapeKeptExactly(raw, matches, llm, minRatio, final, applied);
  }

  /** A safe term with a two-line canonical form, found in a text of one line. */
  const TWO_LINE_TERM := Term("t", "x\ny", "safe", 1.0, [])
  const FOUND_ONCE := [Pattern(TWO_LINE_TERM, [Occurrence(0, 1)])]

  lemma OneMatch(window: nat, lower: string -> string)
    ensures AllFoundIn("ab", FOUND_ONCE)
    ensures ChosenMatches("ab", FOUND_ONCE, window, lower) == [Match(0, 1, "a", TWO_LINE_TERM, Replaced)]
  {
    var m := Match(0, 1, "a", TWO_LINE_TERM, Replaced);
    var found := FOUND_ONCE[0].found;
    assert MatchAt("ab", found[0], TWO_LINE_TERM, window, lower) == m;
    assert FromFound("ab", [], TWO_LINE_TERM, found[..0], window, lower) == [];
    assert Candidates("ab", FOUND_ONCE[..0], window, lower) == [];
    assert Candidates("ab", FOUND_ONCE, window, lower) == [m];
    assert StableSort([m], ByPriority) == [m];
    assert Select([m][..0]) == [];
  }

  /** The shape is lost on it, and with it the correction: the one segment falls back to its raw text. */
  lemma ShapeLostExample(window: nat, lower: string -> string, minRatio: real, segment: RawSegment)
    requires TextOf(segment) == "ab"
    ensures AllFoundIn("ab", FOUND_ONCE)
    ensures var matches := ChosenMatches("ab", FOUND_ONCE, window, lower);
            var (final, applied) := Settle("ab", ResultOf("ab", matches), None, minRatio);
            && |SplitLines("ab")| == 1 != |SplitLines(final)|
            && BuildCorrectedSegments([segment], final)[0].text == "ab" != final
  {
    OneMatch(window, lower);
    var matches := ChosenMatches("ab", FOUND_ONCE, window, lower);
    var final := Splice("ab", matches, 0);
    LineCount("ab");
    assert BreakCount("x\ny"[1..]) == 1;
    assert "ab"[1..] == "b";
    ShapeLostExactly("ab", matches, None, minRatio, final, false);
  }

  /** Every term that was written into the text is in the final text, whichever path produced it. */
  lemma ProtectedTermsStand(raw: string, matches: seq<Match>, llm: Option<string>, minRatio: real, final: string,
                            applied: bool, term: string)
    requires Fits(raw, matches, 0)
    requires Chosen(raw, matches, llm, minRatio, final, applied)
    requires term in ReplacedTerms(LogsOf(matches))
    ensures Contains(final, term)
  {
    var rules := ResultOf(raw, matches);
    var logs := LogsOf(matches);
    ProtectedTermsExact(logs);
    var log :| log in logs && log.action.Replaced? && log.corrected == term;
    var q :| 0 <= q < |logs| && logs[q] == log;
    OutputStands(raw, matches, 0, q);
    assert Output(matches[q]) == term;
    if applied {
      assert final == Strip(llm.value);
      var k :| 0 <= k < |rules.protectedTerms| && rules.protectedTerms[k] == term;
      assert !Drops(final, rules.correctedText, rules.protectedTerms[k]);
    }
  }

  lemma TooShortExactly(length: nat, rawLength: nat, minRatio: real)
    requires rawLength > 0
    ensures TooShort(length, rawLength, minRatio) <==> length as real < minRatio * rawLength as real
  {
    var q := length as real / rawLength as real;
    assert q * rawLength as real == length as real;
    if q >= minRatio {
      assert (q - minRatio) * rawLength as real >= 0.0;
    } else {
      assert (minRatio - q) * rawLength as real > 0.0;
    }
  }

  /** Every given term that the fallback has is in the candidate too. */
  ghost predicate KeepsTerms(candidate: string, fallback: string, terms: seq<string>) {
    forall t {:trigger t in terms} :: t in terms ==> !Drops(candidate, fallback, t)
  }

  lemma KeepsTermsExactly(candidate: string, fallback: string, terms: seq<string>)
    ensures KeepsTerms(candidate, fallback, terms)
       <==> !exists k :: 0 <= k < |terms| && Drops(candidate, fallback, terms[k])
  {
    if KeepsTerms(candidate, fallback, terms) {
      forall k | 0 <= k < |terms| ensures !Drops(candidate, fallback, terms[k]) {
        assert terms[k] in terms;
      }
    }
  }

  /** At least the given share of the raw text's length. */
  predicate LongEnough(length: nat, rawLength: nat, minRatio: real) {
    length as real >= minRatio * rawLength as real
  }

  lemma LongEnoughExactly(length: nat, rawLength: nat, minRatio: real)
    ensures LongEnough(length, rawLength, minRatio) <==> rawLength == 0 || !TooShort(length, rawLength, minRatio)
  {
    if rawLength == 0 {
      assert minRatio * 0.0 == 0.0;
    } else {
      TooShortExactly(length, rawLength, minRatio);
    }
  }

  /** When the model's answer is taken, and that otherwise the rules' text is. */
  lemma AcceptedExactly(raw: string, fallback: string, candidate: string, terms: seq<string>, minRatio: real)
    ensures var (text, accepted) := ChooseValidatedOutput(raw, fallback, candidate, terms, minRatio);
            && (accepted <==>
                && Strip(candidate) != "" && |SplitLines(Strip(candidate))| == |SplitLines(raw)|
                && LongEnough(|Strip(candidate)|, |Strip(raw)|, minRatio)
                && KeepsTerms(Strip(candidate), fallback, terms))
            && text == if accepted then Strip(candidate) else fallback
  {
    var normalized := Strip(candidate);
    KeepsTermsExactly(normalized, fallback, terms);
    LongEnoughExactly(|normalized|, |Strip(raw)|, minRatio);
  }

  /** What the model's answer guarantees against the raw text once it has been taken. */
  lemma AcceptedGuarantees(raw: string, matches: seq<Match>, llm: Option<string>, minRatio: real, final: string)
    requires Fits(raw, matches, 0) && Chosen(raw, matches, llm, minRatio, final, true)
    ensures final != "" && Strip(final) == final && |SplitLines(final)| == |SplitLines(raw)|
    ensures LongEnough(|final|, |Strip(raw)|, minRatio)
    ensures forall term :: term in ReplacedTerms(LogsOf(matches)) ==> Contains(final, term)
  {
    StripTwice(llm.value);
    var rules := ResultOf(raw, matches);
    AcceptedExactly(raw, rules.correctedText, llm.value, rules.protectedTerms, minRatio);
    forall term | term in ReplacedTerms(LogsOf(matches)) ensures Contains(final, term) {
      ProtectedTermsStand(raw, matches, llm, minRatio, final, true, term);
    }
  }

  /** Which text is settled on: the model's stripped answer exactly when there is one that is not blank, has the raw
      text's number of lines and the given share of its length, and lacks no term that the rules wrote and kept; else
      the rules'. */
  lemma SettledExactly(raw: string, matches: seq<Match>, llm: Option<string>, minRatio: real, final: string,
                       applied: bool)
    requires Fits(raw, matches, 0) && Chosen(raw, matches, llm, minRatio, final, applied)
    ensures applied <==>
              && llm.Some? && Strip(llm.value) != "" && |SplitLines(Strip(llm.value))| == |SplitLines(raw)|
              && LongEnough(|Strip(llm.value)|, |Strip(raw)|, minRatio)
              && forall term :: term in ReplacedTerms(LogsOf(matches)) ==> Contains(Strip(llm.value), term)
    ensures final == if applied then Strip(llm.value) else Splice(raw, matches, 0)
  {
    var rules := ResultOf(raw, matches);
    if llm.Some? {
      AcceptedExactly(raw, rules.correctedText, llm.value, rules.protectedTerms, minRatio);
      TermsKeptExactly(raw, matches, Strip(llm.value));
    }
  }

  /** Every protected term stands in the rules' text, so a candidate must hold them all. */
  lemma TermsKeptExactly(raw: string, matches: seq<Match>, candidate: string)
    requires Fits(raw, matches, 0)
    ensures KeepsTerms(candidate, Splice(raw, matches, 0), ResultOf(raw, matches).protectedTerms)
       <==> forall term :: term in ReplacedTerms(LogsOf(matches)) ==> Contains(candidate, term)
  {
    var logs := LogsOf(matches);
    ProtectedTermsExact(logs);
    forall term | term in ReplacedTerms(logs) ensures Contains(Splice(raw, matches, 0), term) {
      ProtectedTermsStand(raw, matches, None, 0.0, Splice(raw, matches, 0), false, term);
    }
  }

  /** Validation is stable: an answer that was taken is taken again, unchanged, and white space around an answer makes
      no difference. */
  lemma AcceptedAgain(raw: string, fallback: string, candidate: string, terms: seq<string>, minRatio: real)
    ensures ChooseValidatedOutput(raw, fallback, Strip(candidate), terms, minRatio)
         == ChooseValidatedOutput(raw, fallback, candidate, terms, minRatio)
    ensures var (text, accepted) := ChooseValidatedOutput(raw, fallback, candidate, terms, minRatio);
            accepted ==> ChooseValidatedOutput(raw, fallback, text, terms, minRatio) == (text, true)
  {
    StripTwice(candidate);
  }

  /** The rules' own text as the model's answer is never replaced by another text; it passes exactly when it is long
      enough against the raw text. */
  lemma OwnTextAccepted(raw: string, matches: seq<Match>, minRatio: real)
    requires Fits(raw, matches, 0) && InsideLines(matches)
    requires var own := Splice(raw, matches, 0); own != "" && Strip(own) == own
    ensures var own := Splice(raw, matches, 0);
            && Settle(raw, ResultOf(raw, matches), Some(own), minRatio)
               == (own, LongEnough(|own|, |Strip(raw)|, minRatio))
  {
    var own := Splice(raw, matches, 0);
    ShapeKept(raw, matches, None, minRatio, own, false);
    LongEnoughExactly(|own|, |Strip(raw)|, minRatio);
  }

  // ---------------------------------------------------------------- positions

  lemma {:induction false} HoldingLine(text: string, cursor: nat, p: nat)
    requires cursor <= p < |text|
    ensures FirstHolding(p, RangesOf(KeepLines(text[cursor..]), cursor)) == IndexFrom(text, cursor, p)
    ensures IndexFrom(text, cursor, p) < |KeepLines(text[cursor..])|
    ensures |RangesOf(KeepLines(text[cursor..]), cursor)| == |KeepLines(text[cursor..])|
    decreases |text| - cursor
  {
    var n := NextLine(text, cursor);
    SplitFrom(text, cursor);
    RangesLength(KeepLines(text[cursor..]), cursor);
    if p >= n {
      HoldingLine(text, n, p);
    }
  }

  lemma {:induction false} RangesLength(lines: seq<string>, cursor: nat)
    ensures |RangesOf(lines, cursor)| == |lines|
  {
    if lines != [] {
      RangesLength(lines[1..], cursor + |lines[0]|);
    }
  }

  lemma {:induction false} RangesEnd(lines: seq<string>, cursor: nat)
    requires lines != []
    ensures RangesOf(lines, cursor) != []
    ensures RangesOf(lines, cursor)[|RangesOf(lines, cursor)| - 1].1 == cursor + |Concat(lines)|
  {
    ConcatHead(lines);
    if |lines| == 1 {
      assert lines[1..] == [];
    } else {
      RangesEnd(lines[1..], cursor + |lines[0]|);
    }
  }

  lemma {:induction false} HoldsNone(lines: seq<string>, cursor: nat, p: nat)
    requires p >= cursor + |Concat(lines)|
    ensures FirstHolding(p, RangesOf(lines, cursor)) == |lines|
  {
    if lines != [] {
      ConcatHead(lines);
      HoldsNone(lines[1..], cursor + |lines[0]|, p);
    }
  }

  lemma {:induction false} ConcatHead(lines: seq<string>)
    requires lines != []
    ensures |Concat(lines)| == |lines[0]| + |Concat(lines[1..])|
  {
    var last := |lines| - 1;
    if last == 0 {
      assert lines[..0] == [] && lines[1..] == [];
    } else {
      ConcatHead(lines[..last]);
      assert lines[..last][1..] == lines[1..][..last - 1];
    }
  }

  lemma {:induction false} KeptLinesLength(text: string)
    ensures |Concat(KeepLines(text))| == |text|
    ensures KeepLines(text) == [] <==> text == ""
    decreases |text|
  {
    if text != "" {
      var lines := KeepLines(text);
      ConcatHead(lines);
      var i := FirstBreak(text);
      if i < |text| {
        KeptLinesLength(text[i + BreakLength(text, i)..]);
      } else {
        assert lines[1..] == [];
      }
    }
  }

  /** A position in the text is looked up in the line that holds it, the end of the text in the last line, and a
      position beyond the end nowhere. */
  lemma IndexOfPosition(text: string, p: nat)
    ensures SegmentIndexForRange(p, RangesOf(KeepLines(text), 0))
         == if p < |text| then Some(IndexFrom(text, 0, p))
            else if p == |text| > 0 then Some(|KeepLines(text)| - 1)
            else None
  {
    KeptLinesLength(text);
    if p < |text| {
      HoldingLine(text, 0, p);
      assert text[0..] == text;
    } else if text != "" {
      RangesLength(KeepLines(text), 0);
      RangesEnd(KeepLines(text), 0);
      HoldsNone(KeepLines(text), 0, p);
    }
  }

  // ---------------------------------------------------------------- the audit

  /** The model's answer changed the line and wrote the canonical form of the term under review. */
  ghost predicate Verified(entry: AuditLog, terms: seq<Term>, m: Match, applied: bool) {
    && applied && entry.correctedText != entry.originalText
    && exists k {:trigger terms[k]} :: 0 <= k < |terms| && terms[k].id == m.term.id
         && (forall h {:trigger terms[h]} :: 0 <= h < k ==> terms[h].id != m.term.id)
         && Contains(entry.correctedText, terms[k].canonical)
  }

  /** The audit entry of a match, with `lines` the lines of the final text: it stands at the segment of the line that
      holds the match, with that segment's times and text, and compares that text with the final line of the same
      index, or with itself when there is no such line. */
  ghost predicate IsEntry(raw: string, segments: seq<RawSegment>, terms: seq<Term>, lines: seq<string>, m: Match,
                          entry: AuditLog, applied: bool)
    requires m.start < |raw|
  {
    var index := IndexFrom(raw, 0, m.start);
    && entry.segmentIndex == index < |segments|
    && entry.start == (if segments[index].start.Some? then segments[index].start.value else 0.0)
    && entry.end == (if segments[index].end.Some? then segments[index].end.value else 0.0)
    && entry.termId == m.term.id && entry.policy == m.term.policy
    && entry.originalText == (if segments[index].text.Some? then segments[index].text.value else "")
    && entry.correctedText == (if index < |lines| then lines[index] else entry.originalText)
    && (entry.decision.LlmVerified? || entry.decision.ReviewRequired? <==> m.action.ForReview?)
    && (entry.decision.LlmVerified? <==> m.action.ForReview? && Verified(entry, terms, m, applied))
    && (entry.decision.ReplacedLine? <==> m.action.Replaced? && entry.correctedText != entry.originalText)
  }

  /** When lines and segments correspond, the segment's text holds the match, and on the rule path the corrected line
      holds the log's output. */
  ghost predicate WellAudited(raw: string, segments: seq<RawSegment>, terms: seq<Term>, lines: seq<string>, m: Match,
                              entry: AuditLog, applied: bool)
  {
    && m.start < |raw| && IsEntry(raw, segments, terms, lines, m, entry, applied)
    && entry.segmentIndex < |lines| && entry.correctedText == lines[entry.segmentIndex]
    && Contains(entry.originalText, m.original)
    && (!applied ==> Contains(entry.correctedText, Output(m)))
  }

  /** The term looked up is the first with that id. */
  lemma {:induction false} TermLookedUp(terms: seq<Term>, id: string)
    ensures TermById(terms, id).None? ==> forall k {:trigger terms[k]} :: 0 <= k < |terms| ==> terms[k].id != id
    ensures TermById(terms, id).Some? ==>
              exists k {:trigger terms[k]} ::
                && 0 <= k < |terms| && terms[k] == TermById(terms, id).value && terms[k].id == id
                && forall h {:trigger terms[h]} :: 0 <= h < k ==> terms[h].id != id
  {
    if terms != [] && terms[0].id != id {
      TermLookedUp(terms[1..], id);
      assert forall k {:trigger terms[k]} :: 0 < k < |terms| ==> terms[k] == terms[1..][k - 1];
      if TermById(terms, id).Some? {
        var k :| 0 <= k < |terms[1..]| && terms[1..][k] == TermById(terms, id).value && terms[1..][k].id == id
          && forall h {:trigger terms[1..][h]} :: 0 <= h < k ==> terms[1..][h].id != id;
        assert terms[k + 1] == TermById(terms, id).value;
      }
    }
  }

  lemma VerifiedExactly(entry: AuditLog, terms: seq<Term>, m: Match, applied: bool)
    ensures Verified(entry, terms, m, applied)
       <==> && applied && entry.correctedText != entry.originalText && TermById(terms, m.term.id).Some?
            && Contains(entry.correctedText, TermById(terms, m.term.id).value.canonical)
  {
    TermLookedUp(terms, m.term.id);
  }

  lemma MatchText(text: string, m: Match, s: nat, b: nat)
    requires s <= m.start < m.end <= b <= |text| && m.original == text[m.start..m.end]
    ensures Contains(text[s..b], m.original)
  {
    var line, i := text[s..b], m.start - s;
    forall k | 0 <= k < |m.original| ensures line[i..i + |m.original|][k] == m.original[k] {
      assert line[i + k] == text[m.start + k];
    }
    assert StandsAt(line, m.original, i);
  }

  /** A log has an entry exactly when its match lies in the line of some segment. */
  lemma EntryExactly(raw: string, m: Match, segments: seq<RawSegment>, lines: seq<string>, terms: seq<Term>,
                     applied: bool)
    requires m.start < |raw|
    ensures var one := AuditOne(LogOf(m), RangesOf(KeepLines(raw), 0), lines, segments, terms, applied);
            && (one.Some? <==> IndexFrom(raw, 0, m.start) < |segments|)
            && (one.Some? ==> IsEntry(raw, segments, terms, lines, m, one.value, applied))
  {
    IndexOfPosition(raw, m.start);
    var one := AuditOne(LogOf(m), RangesOf(KeepLines(raw), 0), lines, segments, terms, applied);
    if one.Some? {
      VerifiedExactly(one.value, terms, m, applied);
    }
  }

  /** The match lies in the line of some segment. */
  predicate InSomeSegment(raw: string, m: Match, segments: seq<RawSegment>) {
    m.start < |raw| && IndexFrom(raw, 0, m.start) < |segments|
  }

  /** The matches that do, in order. */
  function Located(raw: string, matches: seq<Match>, segments: seq<RawSegment>): seq<Match> {
    if matches == [] then []
    else
      var m := matches[|matches| - 1];
      Located(raw, matches[..|matches| - 1], segments) + if InSomeSegment(raw, m, segments) then [m] else []
  }

  ghost predicate EntryAt(raw: string, segments: seq<RawSegment>, terms: seq<Term>, lines: seq<string>,
                          located: seq<Match>, audit: seq<AuditLog>, applied: bool, q: nat)
    requires q < |located| && q < |audit|
  {
    located[q].start < |raw| && IsEntry(raw, segments, terms, lines, located[q], audit[q], applied)
  }

  /** One entry for each of the given matches, in order. */
  ghost predicate AreEntries(raw: string, segments: seq<RawSegment>, terms: seq<Term>, lines: seq<string>,
                             located: seq<Match>, audit: seq<AuditLog>, applied: bool)
  {
    && |audit| == |located|
    && forall q {:trigger EntryAt(raw, segments, terms, lines, located, audit, applied, q)} :: 0 <= q < |audit| ==>
         EntryAt(raw, segments, terms, lines, located, audit, applied, q)
  }

  lemma EntryAppended(raw: string, segments: seq<RawSegment>, terms: seq<Term>, lines: seq<string>,
                      located: seq<Match>, audit: seq<AuditLog>, applied: bool, m: Match, entry: AuditLog)
    requires AreEntries(raw, segments, terms, lines, located, audit, applied)
    requires m.start < |raw| && IsEntry(raw, segments, terms, lines, m, entry, applied)
    ensures AreEntries(raw, segments, terms, lines, located + [m], audit + [entry], applied)
  {
    forall q | 0 <= q < |audit| + 1
      ensures EntryAt(raw, segments, terms, lines, located + [m], audit + [entry], applied, q)
    {
      assert q < |audit| ==> EntryAt(raw, segments, terms, lines, located, audit, applied, q);
    }
  }

  lemma AuditStep(logs: seq<Log>, log: Log, ranges: seq<(nat, nat)>, lines: seq<string>, segments: seq<RawSegment>,
                  terms: seq<Term>, applied: bool)
    ensures var one := AuditOne(log, ranges, lines, segments, terms, applied);
            var audit := Audit(logs, ranges, lines, segments, terms, applied);
            Audit(logs + [log], ranges, lines, segments, terms, applied)
            == if one.Some? then audit + [one.value] else audit
  {
    assert (logs + [log])[..|logs|] == logs;
  }

  lemma LocatedStep(raw: string, matches: seq<Match>, m: Match, segments: seq<RawSegment>)
    ensures var located := Located(raw, matches, segments);
            Located(raw, matches + [m], segments) == if InSomeSegment(raw, m, segments) then located + [m] else located
  {
    assert (matches + [m])[..|matches|] == matches;
  }

  lemma EntriesGrow(raw: string, matches: seq<Match>, m: Match, segments: seq<RawSegment>, lines: seq<string>,
                    terms: seq<Term>, applied: bool, audit: seq<AuditLog>)
    requires AreEntries(raw, segments, terms, lines, Located(raw, matches, segments), audit, applied)
    requires m.start < |raw|
    ensures var one := AuditOne(LogOf(m), RangesOf(KeepLines(raw), 0), lines, segments, terms, applied);
            AreEntries(raw, segments, terms, lines, Located(raw, matches + [m], segments),
                       if one.Some? then audit + [one.value] else audit, applied)
  {
    var located := Located(raw, matches, segments);
    LocatedStep(raw, matches, m, segments);
    EntryExactly(raw, m, segments, lines, terms, applied);
    var one := AuditOne(LogOf(m), RangesOf(KeepLines(raw), 0), lines, segments, terms, applied);
    if one.Some? {
      EntryAppended(raw, segments, terms, lines, located, audit, applied, m, one.value);
    }
  }

  lemma LogsStep(matches: seq<Match>, m: Match)
    ensures LogsOf(matches + [m]) == LogsOf(matches) + [LogOf(m)]
  {
  }

  /** The audit of any text, whether or not its lines correspond to the segments: one entry for each match that lies in
      the line of some segment, and nothing else. */
  lemma {:induction false} AuditExactly(raw: string, matches: seq<Match>, segments: seq<RawSegment>, lines: seq<string>,
                                        terms: seq<Term>, applied: bool)
    requires forall k :: 0 <= k < |matches| ==> matches[k].start < |raw|
    ensures AreEntries(raw, segments, terms, lines, Located(raw, matches, segments),
                       Audit(LogsOf(matches), RangesOf(KeepLines(raw), 0), lines, segments, terms, applied), applied)
  {
    if matches != [] {
      var last := |matches| - 1;
      AuditExactly(raw, matches[..last], segments, lines, terms, applied);
      AuditGrows(raw, matches[..last], matches[last], segments, lines, terms, applied);
      assert matches[..last] + [matches[last]] == matches;
    }
  }

  lemma AuditGrows(raw: string, matches: seq<Match>, m: Match, segments: seq<RawSegment>, lines: seq<string>,
                   terms: seq<Term>, applied: bool)
    requires m.start < |raw|
    requires AreEntries(raw, segments, terms, lines, Located(raw, matches, segments),
                        Audit(LogsOf(matches), RangesOf(KeepLines(raw), 0), lines, segments, terms, applied), applied)
    ensures AreEntries(raw, segments, terms, lines, Located(raw, matches + [m], segments),
                       Audit(LogsOf(matches + [m]), RangesOf(KeepLines(raw), 0), lines, segments, terms, applied),
                       applied)
  {
    var ranges := RangesOf(KeepLines(raw), 0);
    EntriesGrow(raw, matches, m, segments, lines, terms, applied,
                Audit(LogsOf(matches), ranges, lines, segments, terms, applied));
    AuditStep(LogsOf(matches), LogOf(m), ranges, lines, segments, terms, applied);
    LogsStep(matches, m);
  }

  lemma AuditOfMatch(raw: string, matches: seq<Match>, q: nat, segments: seq<RawSegment>, final: string,
                     terms: seq<Term>, applied: bool)
    requires Fits(raw, matches, 0) && InsideLines(matches) && q < |matches|
    requires SplitLines(raw) == RawTexts(segments)
    requires |SplitLines(final)| == |SplitLines(raw)|
    requires !applied ==> SplitLines(final) == LinesFrom(raw, matches, 0)
    ensures var one := AuditOne(LogOf(matches[q]), RangesOf(KeepLines(raw), 0), SplitLines(final), segments, terms,
                                applied);
            one.Some? && WellAudited(raw, segments, terms, SplitLines(final), matches[q], one.value, applied)
  {
    var m := matches[q];
    StartsGrow(raw, matches, 0, q);
    assert InsideLine(m);
    MatchInItsLine(raw, m, 0);
    assert raw[0..] == raw;
    IndexOfPosition(raw, m.start);
    var s := StartFrom(raw, 0, m.start);
    MatchText(raw, m, s, LineEnd(raw, s));
    OutputInItsLine(raw, matches, 0, q);
    EntryExactly(raw, m, segments, SplitLines(final), terms, applied);
  }

  /** When every log has an entry, the audit is those entries in order. */
  lemma {:induction false} AuditKeepsAll(logs: seq<Log>, ranges: seq<(nat, nat)>, lines: seq<string>,
                                         segments: seq<RawSegment>, terms: seq<Term>, applied: bool)
    requires forall k {:trigger logs[k]} :: 0 <= k < |logs| ==>
               AuditOne(logs[k], ranges, lines, segments, terms, applied).Some?
    ensures |Audit(logs, ranges, lines, segments, terms, applied)| == |logs|
    ensures forall k {:trigger logs[k]} :: 0 <= k < |logs| ==>
              Some(Audit(logs, ranges, lines, segments, terms, applied)[k])
              == AuditOne(logs[k], ranges, lines, segments, terms, applied)
  {
    if logs != [] {
      AuditKeepsAll(logs[..|logs| - 1], ranges, lines, segments, terms, applied);
      assert forall k {:trigger logs[k]} :: 0 <= k < |logs| - 1 ==> logs[..|logs| - 1][k] == logs[k];
    }
  }

  ghost predicate AllAudited(raw: string, segments: seq<RawSegment>, terms: seq<Term>, lines: seq<string>,
                             matches: seq<Match>, audit: seq<AuditLog>, applied: bool)
  {
    && |audit| == |matches|
    && forall k {:trigger audit[k]} :: 0 <= k < |matches| ==>
         WellAudited(raw, segments, terms, lines, matches[k], audit[k], applied)
  }

  /** One audit entry per rule log, in order, each at the segment that holds its match. */
  lemma AuditOfAll(raw: string, matches: seq<Match>, segments: seq<RawSegment>, final: string, terms: seq<Term>,
                   applied: bool)
    requires Fits(raw, matches, 0) && InsideLines(matches)
    requires SplitLines(raw) == RawTexts(segments)
    requires |SplitLines(final)| == |SplitLines(raw)|
    requires !applied ==> SplitLines(final) == LinesFrom(raw, matches, 0)
    ensures AllAudited(raw, segments, terms, SplitLines(final), matches,
                       Audit(LogsOf(matches), RangesOf(KeepLines(raw), 0), SplitLines(final), segments, terms, applied),
                       applied)
  {
    var logs, ranges, lines := LogsOf(matches), RangesOf(KeepLines(raw), 0), SplitLines(final);
    forall k | 0 <= k < |matches|
      ensures var one := AuditOne(logs[k], ranges, lines, segments, terms, applied);
              one.Some? && WellAudited(raw, segments, terms, lines, matches[k], one.value, applied)
    {
      AuditOfMatch(raw, matches, k, segments, final, terms, applied);
    }
    AuditKeepsAll(logs, ranges, lines, segments, terms, applied);
    var audit := Audit(logs, ranges, lines, segments, terms, applied);
    forall k {:trigger audit[k]} | 0 <= k < |matches|
      ensures WellAudited(raw, segments, terms, lines, matches[k], audit[k], applied)
    {
      assert Some(audit[k]) == AuditOne(logs[k], ranges, lines, segments, terms, applied);
    }
  }

  /** A transcript's text as the merger renders it, of single-line texts, the last one not empty. */
  ghost predicate Rendered(segments: seq<RawSegment>, raw: string) {
    && raw == Join(RawTexts(segments)) && AllBreakFree(RawTexts(segments))
    && (segments != [] ==> TextOf(segments[|segments| - 1]) != "")
  }

  lemma RenderedSplits(segments: seq<RawSegment>, raw: string)
    requires Rendered(segments, raw)
    ensures SplitLines(raw) == RawTexts(segments)
  {
    SplitInvertsJoin(RawTexts(segments));
  }

  lemma AlignedLines(segments: seq<RawSegment>, terms: seq<Term>, llm: Option<string>, minRatio: real, raw: string,
                     matches: seq<Match>, final: string, applied: bool)
    requires SplitLines(raw) == RawTexts(segments)
    requires Fits(raw, matches, 0) && InsideLines(matches) && Chosen(raw, matches, llm, minRatio, final, applied)
    ensures |SplitLines(final)| == |segments|
    ensures AllAudited(raw, segments, terms, SplitLines(final), matches,
                       Audit(LogsOf(matches), RangesOf(KeepLines(raw), 0), SplitLines(final), segments, terms, applied),
                       applied)
  {
    ShapeKept(raw, matches, llm, minRatio, final, applied);
    AuditOfAll(raw, matches, segments, final, terms, applied);
  }

  /** Every corrected segment keeps times, speaker and confidence of its segment and has the text of its index. */
  ghost predicate SegmentsCarry(segments: seq<RawSegment>, texts: seq<string>, corrected: seq<Merger.MergedSegment>) {
    && |corrected| == |segments| == |texts|
    && forall i :: 0 <= i < |segments| ==>
         && corrected[i].text == texts[i]
         && corrected[i].start == (if segments[i].start.Some? then segments[i].start.value else 0.0)
         && corrected[i].end == (if segments[i].end.Some? then segments[i].end.value else 0.0)
         && corrected[i].speaker == (if segments[i].speaker == Some("") then None else segments[i].speaker)
         && corrected[i].confidence == segments[i].confidence
  }

  /** The corrected segments of any text: its lines when there is one per segment, else the segments' own texts. */
  lemma SegmentsExactly(segments: seq<RawSegment>, corrected: string)
    ensures |SplitLines(corrected)| == |segments| ==>
              SegmentsCarry(segments, SplitLines(corrected), BuildCorrectedSegments(segments, corrected))
    ensures |SplitLines(corrected)| != |segments| ==>
              exists texts: seq<string> ::
                && |texts| == |segments|
                && (forall i :: 0 <= i < |segments| ==>
                      texts[i] == if segments[i].text.Some? then segments[i].text.value else "")
                && SegmentsCarry(segments, texts, BuildCorrectedSegments(segments, corrected))
  {
    if |SplitLines(corrected)| != |segments| {
      var texts := RawTexts(segments);
      assert SegmentsCarry(segments, texts, BuildCorrectedSegments(segments, corrected));
    }
  }

  /** Transcript in, correction out, for a rendered transcript and a dictionary of single-line canonical forms: one
      corrected line per segment, none of them by fallback, and one audit entry per rule log, in order, each at the
      segment that holds its match. */
  lemma AlignedCorrection(segments: seq<RawSegment>, patterns: seq<Pattern>, terms: seq<Term>, window: nat,
                          lower: string -> string, llm: Option<string>, minRatio: real, raw: string,
                          matches: seq<Match>, final: string, applied: bool)
    requires Rendered(segments, raw) && AllFoundIn(raw, patterns) && Lineal(raw, patterns)
    requires matches == ChosenMatches(raw, patterns, window, lower)
    requires Chosen(raw, matches, llm, minRatio, final, applied)
    ensures SegmentsCarry(segments, SplitLines(final), BuildCorrectedSegments(segments, final))
    ensures AllAudited(raw, segments, terms, SplitLines(final), matches,
                       Audit(LogsOf(matches), RangesOf(KeepLines(raw), 0), SplitLines(final), segments, terms, applied),
                       applied)
  {
    RenderedSplits(segments, raw);
    ChosenInside(raw, patterns, window, lower, matches);
    AlignedLines(segments, terms, llm, minRatio, raw, matches, final, applied);
  }

  // ---------------------------------------------------------------- from provider results to corrected segments

  /** A merged segment as the transcript stores it. */
  function Stored(item: Merger.MergedSegment): RawSegment {
    Merger.ProviderSegment(Some(item.start), Some(item.end), Some(item.text), item.speaker, item.confidence)
  }

  function Transcript(merged: seq<Merger.MergedSegment>): seq<RawSegment> {
    seq(|merged|, i requires 0 <= i < |merged| => Stored(merged[i]))
  }

  /** No provider segment's text holds a line break inside. */
  ghost predicate SingleLines(chunks: seq<Merger.ChunkResult>) {
    forall c :: c in Merger.Candidates(chunks) ==> BreakFree(c.text)
  }

  lemma TranscriptRendered(chunks: seq<Merger.ChunkResult>, normalize: string -> string, slack: real,
                           merged: seq<Merger.MergedSegment>)
    requires merged == Merger.MergedOf(chunks, normalize, slack)
    requires SingleLines(chunks)
    ensures Rendered(Transcript(merged), Merger.RenderPlainText(merged))
  {
    assert RawTexts(Transcript(merged)) == Merger.TextsOf(merged);
    forall i | 0 <= i < |merged| ensures BreakFree(merged[i].text) && merged[i].text != "" {
      MergerTheorems.MergedItem(chunks, normalize, slack, merged[i]);
    }
  }

  /** The segments with nothing but their texts replaced, by the lines of their index. */
  ghost predicate OnlyTexts(merged: seq<Merger.MergedSegment>, lines: seq<string>,
                            segments: seq<Merger.MergedSegment>)
  {
    && |segments| == |merged| == |lines|
    && forall i :: 0 <= i < |merged| ==> segments[i] == merged[i].(text := lines[i])
  }

  lemma SegmentsCorrected(chunks: seq<Merger.ChunkResult>, normalize: string -> string, slack: real,
                          merged: seq<Merger.MergedSegment>, corrected: string)
    requires merged == Merger.MergedOf(chunks, normalize, slack)
    requires |SplitLines(corrected)| == |merged|
    ensures OnlyTexts(merged, SplitLines(corrected), BuildCorrectedSegments(Transcript(merged), corrected))
  {
    forall i | 0 <= i < |merged| ensures merged[i].speaker != Some("") {
      MergerTheorems.MergedItem(chunks, normalize, slack, merged[i]);
    }
  }

  /** Provider results in, corrected transcript out, with single-line texts and a dictionary of single-line canonical
      forms: each merged segment comes back with nothing but its text replaced, by the corrected line of its index; a
      line that the model did not write is the correction of its own raw line; and every rule log is audited at its
      segment. */
  lemma TranscriptCorrected(chunks: seq<Merger.ChunkResult>, normalize: string -> string, slack: real,
                            merged: seq<Merger.MergedSegment>, raw: string, patterns: seq<Pattern>, terms: seq<Term>,
                            window: nat, lower: string -> string, llm: Option<string>, minRatio: real,
                            matches: seq<Match>, final: string, applied: bool)
    requires merged == Merger.MergedOf(chunks, normalize, slack)
    requires raw == Merger.RenderPlainText(merged) && SingleLines(chunks)
    requires AllFoundIn(raw, patterns) && Lineal(raw, patterns)
    requires matches == ChosenMatches(raw, patterns, window, lower)
    requires Chosen(raw, matches, llm, minRatio, final, applied)
    ensures OnlyTexts(merged, SplitLines(final), BuildCorrectedSegments(Transcript(merged), final))
    ensures InsideLines(matches)
    ensures !applied ==> SplitLines(final) == LinesFrom(raw, matches, 0)
    ensures AllAudited(raw, Transcript(merged), terms, SplitLines(final), matches,
                       Audit(LogsOf(matches), RangesOf(KeepLines(raw), 0), SplitLines(final), Transcript(merged), terms,
                             applied),
                       applied)
  {
    TranscriptRendered(chunks, normalize, slack, merged);
    ChosenInside(raw, patterns, window, lower, matches);
    ShapeKept(raw, matches, llm, minRatio, final, applied);
    AlignedCorrection(Transcript(merged), patterns, terms, window, lower, llm, minRatio, raw, matches, final, applied);
    SegmentsCorrected(chunks, normalize, slack, merged, final);
  }

  /** The segments fall back to their raw texts exactly when the raw text does not have one line per segment. */
  lemma FallbackExactly(raw: string, matches: seq<Match>, llm: Option<string>, minRatio: real, final: string,
                        applied: bool, segments: seq<RawSegment>)
    requires Fits(raw, matches, 0) && InsideLines(matches)
    requires Chosen(raw, matches, llm, minRatio, final, applied)
    ensures |SplitLines(final)| != |segments| <==> |SplitLines(raw)| != |segments|
  {
    ShapeKept(raw, matches, llm, minRatio, final, applied);
  }
}
