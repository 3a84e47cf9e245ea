/**
 The correction of a transcript (app/correction/service.py, validators.py): rules first, then an optional language-model
 pass that is accepted only when it keeps the shape, and the alignment of the result with the transcript's segments. The
 model's answer is a parameter: None when it is switched off, not configured or failed.
 */
module CorrectionService {
  import opened Options
  import opened Text
  import opened RuleCorrector
  import opened RuleCorrectorTheorems
  import Merger

  type RawSegment = Merger.ProviderSegment

  function Max(a: nat, b: nat): nat {
    if a >= b then a else b
  }

  /** `choose_validated_output`. */
  function ChooseValidatedOutput(raw: string, fallback: string, candidate: string, protectedTerms: seq<string>,
                                 minRatio: real): (string, bool)
  {
    var normalized := Strip(candidate);
    if normalized == "" then (fallback, false)
    else if |SplitLines(raw)| != |SplitLines(normalized)| then (fallback, false)
    else if Strip(raw) != "" && TooShort(|normalized|, |Strip(raw)|, minRatio) then (fallback, false)
    else if exists k :: 0 <= k < |protectedTerms| && Drops(normalized, fallback, protectedTerms[k]) then
      (fallback, false)
    else (normalized, true)
  }

  predicate TooShort(length: nat, rawLength: nat, minRatio: real) {
    length as real / Max(1, rawLength) as real < minRatio
  }

  /** The candidate lost a term that the fallback has. */
  predicate Drops(candidate: string, fallback: string, term: string) {
    !Contains(candidate, term) && Contains(fallback, term)
  }

  function TextOf(segment: RawSegment): string {
    Merger.ValueOr(segment.text, "")
  }

  function RawTexts(segments: seq<RawSegment>): seq<string> {
    seq(|segments|, i requires 0 <= i < |segments| => TextOf(segments[i]))
  }

  // ---------------------------------------------------------------- segments

  function LinesFor(segments: seq<RawSegment>, corrected: string): (lines: seq<string>)
    ensures |lines| == |segments|
  {
    if |SplitLines(corrected)| != |segments| then RawTexts(segments) else SplitLines(corrected)
  }

  /** `_build_corrected_segments`. */
  function BuildCorrectedSegments(segments: seq<RawSegment>, corrected: string): seq<Merger.MergedSegment> {
    var lines := LinesFor(segments, corrected);
    seq(|segments|, i requires 0 <= i < |segments| =>
      Merger.MergedSegment(Merger.ValueOr(segments[i].start, 0.0), Merger.ValueOr(segments[i].end, 0.0), lines[i],
                           if segments[i].speaker == Some("") then None else segments[i].speaker,
                           segments[i].confidence))
  }

  // ---------------------------------------------------------------- lines and positions

  function RangesOf(lines: seq<string>, cursor: nat): seq<(nat, nat)> {
    if lines == [] then [] else [(cursor, cursor + |lines[0]|)] + RangesOf(lines[1..], cursor + |lines[0]|)
  }

  /** `_line_ranges`. */
  method LineRanges(text: string) returns (ranges: seq<(nat, nat)>)
    ensures ranges == RangesOf(KeepLines(text), 0)
  {
    var lines := KeepLines(text);
    ranges := [];
    var cursor: nat := 0;
    for k := 0 to |lines|
      invariant ranges + RangesOf(lines[k..], cursor) == RangesOf(lines, 0)
    {
      assert lines[k..][1..] == lines[k + 1..];
      var start := cursor;
      cursor := cursor + |lines[k]|;
      ranges := ranges + [(start, cursor)];
    }
  }

  function FirstHolding(position: nat, ranges: seq<(nat, nat)>): (k: nat)
    ensures k <= |ranges| && (k < |ranges| ==> ranges[k].0 <= position < ranges[k].1)
  {
    if ranges == [] || ranges[0].0 <= position < ranges[0].1 then 0 else 1 + FirstHolding(position, ranges[1..])
  }

  /** `_segment_index_for_range`. */
  function SegmentIndexForRange(position: nat, ranges: seq<(nat, nat)>): Option<nat> {
    var k := FirstHolding(position, ranges);
    if k < |ranges| then Some(k)
    else if ranges != [] && position == ranges[|ranges| - 1].1 then Some(|ranges| - 1)
    else None
  }

  // ---------------------------------------------------------------- the audit

  datatype Decision = LlmVerified | ReviewRequired | ReplacedLine | Kept

  datatype AuditLog = AuditLog(
    segmentIndex: nat, start: real, end: real, termId: string, policy: string, originalText: string,
    correctedText: string, decision: Decision)

  function TermById(terms: seq<Term>, id: string): Option<Term> {
    if terms == [] then None else if terms[0].id == id then Some(terms[0]) else TermById(terms[1..], id)
  }

  function Decide(log: Log, original: string, corrected: string, term: Option<Term>, llmApplied: bool): Decision {
    if log.action.ForReview? then
      if llmApplied && corrected != original && term.Some? && Contains(corrected, term.value.canonical) then LlmVerified
      else ReviewRequired
    else if corrected != original then ReplacedLine
    else Kept
  }

  /** The audit entry of one log, or None when its place is not in a segment. */
  function AuditOne(log: Log, ranges: seq<(nat, nat)>, lines: seq<string>, segments: seq<RawSegment>, terms: seq<Term>,
                    llmApplied: bool): Option<AuditLog>
  {
    var index := SegmentIndexForRange(log.start, ranges);
    if index.None? || index.value >= |segments| then None
    else
      var segment := segments[index.value];
      var original := TextOf(segment);
      var corrected := if index.value < |lines| then lines[index.value] else original;
      Some(AuditLog(index.value, Merger.ValueOr(segment.start, 0.0), Merger.ValueOr(segment.end, 0.0), log.termId,
                    log.policy, original, corrected,
                    Decide(log, original, corrected, TermById(terms, log.termId), llmApplied)))
  }

  function Audit(logs: seq<Log>, ranges: seq<(nat, nat)>, lines: seq<string>, segments: seq<RawSegment>,
                 terms: seq<Term>, llmApplied: bool): seq<AuditLog>
  {
    if logs == [] then []
    else
      var one := AuditOne(logs[|logs| - 1], ranges, lines, segments, terms, llmApplied);
      Audit(logs[..|logs| - 1], ranges, lines, segments, terms, llmApplied) + if one.Some? then [one.value] else []
  }

  /** `_build_correction_logs`. */
  method BuildCorrectionLogs(raw: string, corrected: string, segments: seq<RawSegment>, logs: seq<Log>,
                             terms: seq<Term>, llmApplied: bool) returns (audit: seq<AuditLog>)
    ensures audit
         == Audit(logs, RangesOf(KeepLines(raw), 0), SplitLines(corrected), segments, terms, llmApplied)
  {
    var ranges := LineRanges(raw);
    var lines := SplitLines(corrected);
    audit := [];
    for k := 0 to |logs|
      invariant audit == Audit(logs[..k], ranges, lines, segments, terms, llmApplied)
    {
      assert logs[..k + 1][..k] == logs[..k];
      var log := logs[k];
      var index := SegmentIndexForRange(log.start, ranges);
      if index.None? || index.value >= |segments| {
        continue;
      }
      var segment := segments[index.value];
      var original := TextOf(segment);
      var line := if index.value < |lines| then lines[index.value] else original;
      var term := TermById(terms, log.termId);
      var decision;
      if log.action.ForReview? {
        if llmApplied && line != original && term.Some? && Contains(line, term.value.canonical) {
          decision := LlmVerified;
        } else {
          decision := ReviewRequired;
        }
      } else if line != original {
        decision := ReplacedLine;
      } else {
        decision := Kept;
      }
      audit := audit + [AuditLog(index.value, Merger.ValueOr(segment.start, 0.0), Merger.ValueOr(segment.end, 0.0),
                                 log.termId, log.policy, original, line, decision)];
    }
    assert logs[..|logs|] == logs;
  }

  // ---------------------------------------------------------------- the service

  datatype CorrectionResult = CorrectionResult(
    correctedText: string, segments: seq<Merger.MergedSegment>, logs: seq<AuditLog>, llmApplied: bool)

  /** The text that is settled on, and whether it is the model's. */
  function Settle(raw: string, rules: RuleResult, llm: Option<string>, minRatio: real): (string, bool) {
    if llm.None? then (rules.correctedText, false)
    else ChooseValidatedOutput(raw, rules.correctedText, llm.value, rules.protectedTerms, minRatio)
  }

  /** `CorrectionService.correct`. */
  method Correct(raw: string, segments: seq<RawSegment>, patterns: seq<Pattern>, terms: seq<Term>, window: nat,
                 lower: string -> string, llm: Option<string>, minRatio: real)
    returns (result: CorrectionResult)
    requires AllFoundIn(raw, patterns)
    ensures var rules := ResultOf(raw, ChosenMatches(raw, patterns, window, lower));
            var (final, llmApplied) := Settle(raw, rules, llm, minRatio);
            && result.correctedText == final && result.llmApplied == llmApplied
            && result.segments == BuildCorrectedSegments(segments, final)
            && result.logs == Audit(rules.logs, RangesOf(KeepLines(raw), 0), SplitLines(final), segments, terms,
                                    llmApplied)
  {
    var rules := RuleCorrectorTheorems.Correct(raw, patterns, window, lower);
    var final, llmApplied := rules.correctedText, false;
    if llm.Some? {
      var choice := ChooseValidatedOutput(raw, rules.correctedText, llm.value, rules.protectedTerms, minRatio);
      final, llmApplied := choice.0, choice.1;
    }
    var corrected := BuildCorrectedSegments(segments, final);
    var logs := BuildCorrectionLogs(raw, final, segments, rules.logs, terms, llmApplied);
    result := CorrectionResult(final, corrected, logs, llmApplied);
  }
}
