/**
 Merging the chunks' transcripts (app/stt/merger.py). Times are sample counts, so the half second within which a
 repeated text is a duplicate is a parameter `slack`; `normalize` is the source's text normalization, whatever it does.
 */
module Merger {
  import opened Options
  import opened Chunks
  import opened TimeMap
  import opened Text
  import opened Sorting

  /** A segment as the provider returned it; absent fields are None. */
  datatype ProviderSegment = ProviderSegment(
    start: Option<real>, end: Option<real>, text: Option<string>, speaker: Option<string>, confidence: Option<real>)

  datatype MergedSegment = MergedSegment(
    start: real, end: real, text: string, speaker: Option<string>, confidence: Option<real>)

  datatype ChunkResult = ChunkResult(mappings: seq<Mapping>, segments: seq<ProviderSegment>)

  function ValueOr<T>(value: Option<T>, default: T): T {
    if value.Some? then value.value else default
  }

  /** A provider segment in source time. */
  function Candidate(raw: ProviderSegment, m: seq<Mapping>): MergedSegment {
    var start := MapChunkTime(ValueOr(raw.start, 0.0), m);
    var end := MapChunkTime(ValueOr(raw.end, 0.0), m);
    MergedSegment(start, if end < start then start else end, Strip(ValueOr(raw.text, "")),
                  if raw.speaker == Some("") then None else raw.speaker, raw.confidence)
  }

  function FromChunk(segments: seq<ProviderSegment>, m: seq<Mapping>): seq<MergedSegment> {
    if segments == [] then []
    else
      var last := |segments| - 1;
      var c := Candidate(segments[last], m);
      FromChunk(segments[..last], m) + if c.text == "" then [] else [c]
  }

  /** All segments with text, chunk after chunk. */
  function Candidates(chunks: seq<ChunkResult>): seq<MergedSegment> {
    if chunks == [] then []
    else
      var last := |chunks| - 1;
      Candidates(chunks[..last]) + FromChunk(chunks[last].segments, chunks[last].mappings)
  }

  predicate IsExactDuplicate(left: MergedSegment, right: MergedSegment, normalize: string -> string, slack: real) {
    normalize(left.text) == normalize(right.text) && right.start <= left.end + slack
  }

  function Prefer(left: MergedSegment, right: MergedSegment): MergedSegment {
    if right.confidence.Some? && (left.confidence.None? || right.confidence.value > left.confidence.value) then right
    else if |left.text| >= |right.text| then left
    else right
  }

  predicate ByTime(a: MergedSegment, b: MergedSegment) {
    a.start < b.start || (a.start == b.start && a.end <= b.end)
  }

  // ---------------------------------------------------------------- what the loop builds

  /** The best of a run of duplicates. */
  function Winner(run: seq<MergedSegment>): MergedSegment
    requires run != []
  {
    if |run| == 1 then run[0] else Prefer(Winner(run[..|run| - 1]), run[|run| - 1])
  }

  /** Different texts, or the same text again more than `slack` after the end. */
  ghost predicate Apart(left: MergedSegment, right: MergedSegment, normalize: string -> string, slack: real) {
    normalize(left.text) == normalize(right.text) ==> right.start > left.end + slack
  }

  /** Item `i` repeats the best of the items from `lo` up to it. */
  ghost predicate Repeats(cands: seq<MergedSegment>, lo: nat, i: nat, normalize: string -> string, slack: real)
    requires lo < i < |cands|
  {
    !Apart(Winner(cands[lo..i]), cands[i], normalize, slack)
  }

  /** `cands[lo..hi]` repeats one text. */
  ghost predicate IsRun(cands: seq<MergedSegment>, lo: nat, hi: nat, normalize: string -> string, slack: real) {
    && lo < hi <= |cands|
    && forall i {:trigger Repeats(cands, lo, i, normalize, slack)} :: lo < i < hi ==>
         Repeats(cands, lo, i, normalize, slack)
  }

  /** Run `k` ends because what follows does not repeat its best. */
  ghost predicate RunAt(cands: seq<MergedSegment>, cuts: seq<nat>, merged: seq<MergedSegment>, k: nat,
                        normalize: string -> string, slack: real)
    requires k < |merged| && |cuts| == |merged| + 1
  {
    && IsRun(cands, cuts[k], cuts[k + 1], normalize, slack)
    && merged[k] == Winner(cands[cuts[k]..cuts[k + 1]])
    && (cuts[k + 1] < |cands| ==> Apart(merged[k], cands[cuts[k + 1]], normalize, slack))
  }

  /** The candidates fall into maximal runs, and the list holds the best of each. */
  ghost predicate IsCollapse(cands: seq<MergedSegment>, cuts: seq<nat>, merged: seq<MergedSegment>,
                             normalize: string -> string, slack: real)
  {
    && |cuts| == |merged| + 1 && cuts[0] == 0 && cuts[|merged|] == |cands|
    && forall k {:trigger RunAt(cands, cuts, merged, k, normalize, slack)} :: 0 <= k < |merged| ==>
         RunAt(cands, cuts, merged, k, normalize, slack)
  }

  /** One turn of the loop. */
  function Add(merged: seq<MergedSegment>, c: MergedSegment, normalize: string -> string, slack: real)
    : seq<MergedSegment>
  {
    if merged != [] && IsExactDuplicate(merged[|merged| - 1], c, normalize, slack)
    then merged[|merged| - 1 := Prefer(merged[|merged| - 1], c)]
    else merged + [c]
  }

  function Collapse(cands: seq<MergedSegment>, normalize: string -> string, slack: real): seq<MergedSegment> {
    if cands == [] then []
    else Add(Collapse(cands[..|cands| - 1], normalize, slack), cands[|cands| - 1], normalize, slack)
  }

  lemma CollapseAppend(cands: seq<MergedSegment>, c: MergedSegment, normalize: string -> string, slack: real)
    ensures Collapse(cands + [c], normalize, slack) == Add(Collapse(cands, normalize, slack), c, normalize, slack)
  {
    assert (cands + [c])[..|cands|] == cands;
  }

  /** What one provider segment adds to the list. */
  lemma CollapseStep(before: seq<MergedSegment>, segments: seq<ProviderSegment>, s: nat, m: seq<Mapping>,
                     normalize: string -> string, slack: real)
    requires s < |segments|
    ensures var c := Candidate(segments[s], m);
            var merged := Collapse(before + FromChunk(segments[..s], m), normalize, slack);
            var extended := Collapse(before + FromChunk(segments[..s + 1], m), normalize, slack);
            && (c.text == "" ==> extended == merged)
            && (c.text != "" ==> extended == Add(merged, c, normalize, slack))
  {
    var c := Candidate(segments[s], m);
    var earlier := before + FromChunk(segments[..s], m);
    assert segments[..s + 1][..s] == segments[..s];
    if c.text == "" {
      assert before + FromChunk(segments[..s + 1], m) == earlier;
    } else {
      assert before + FromChunk(segments[..s + 1], m) == earlier + [c];
      CollapseAppend(earlier, c, normalize, slack);
    }
  }

  lemma CandidatesStep(chunks: seq<ChunkResult>, c: nat)
    requires c < |chunks|
    ensures Candidates(chunks[..c + 1])
         == Candidates(chunks[..c]) + FromChunk(chunks[c].segments, chunks[c].mappings)
  {
    assert chunks[..c + 1][..c] == chunks[..c];
  }

  /** The collapse of all candidates, sorted by time. */
  function MergedOf(chunks: seq<ChunkResult>, normalize: string -> string, slack: real): seq<MergedSegment> {
    StableSort(Collapse(Candidates(chunks), normalize, slack), ByTime)
  }

  /** The inner loop of `merge_chunk_segments`: the list after the candidates `before`, extended by one chunk. */
  method MergeChunk(merged: seq<MergedSegment>, m: seq<Mapping>, segments: seq<ProviderSegment>,
                    normalize: string -> string, slack: real, ghost before: seq<MergedSegment>)
    returns (extended: seq<MergedSegment>)
    requires merged == Collapse(before, normalize, slack)
    ensures extended == Collapse(before + FromChunk(segments, m), normalize, slack)
  {
    extended := merged;
    assert before + FromChunk(segments[..0], m) == before;
    for s := 0 to |segments|
      invariant extended == Collapse(before + FromChunk(segments[..s], m), normalize, slack)
    {
      CollapseStep(before, segments, s, m, normalize, slack);
      var segment := segments[s];
      var text := Strip(ValueOr(segment.text, ""));
      if text == "" {
        continue;
      }
      var start := MapChunkTime(ValueOr(segment.start, 0.0), m);
      var end := MapChunkTime(ValueOr(segment.end, 0.0), m);
      if end < start {
        end := start;
      }
      var candidate := MergedSegment(start, end, text, if segment.speaker == Some("") then None else segment.speaker,
                                     segment.confidence);
      assert candidate == Candidate(segments[s], m);
      if extended != [] && IsExactDuplicate(extended[|extended| - 1], candidate, normalize, slack) {
        extended := extended[|extended| - 1 := Prefer(extended[|extended| - 1], candidate)];
      } else {
        extended := extended + [candidate];
      }
    }
    assert segments[..|segments|] == segments;
  }

  /** `merge_chunk_segments`. */
  method MergeChunkSegments(chunks: seq<ChunkResult>, normalize: string -> string, slack: real)
    returns (result: seq<MergedSegment>)
    ensures result == MergedOf(chunks, normalize, slack)
  {
    var merged: seq<MergedSegment> := [];
    for c := 0 to |chunks|
      invariant merged == Collapse(Candidates(chunks[..c]), normalize, slack)
    {
      merged := MergeChunk(merged, chunks[c].mappings, chunks[c].segments, normalize, slack, Candidates(chunks[..c]));
      CandidatesStep(chunks, c);
    }
    assert chunks[..|chunks|] == chunks;
    result := StableSort(merged, ByTime);
  }

  function RenderPlainText(segments: seq<MergedSegment>): string {
    Join(TextsOf(segments))
  }

  function TextsOf(segments: seq<MergedSegment>): seq<string> {
    seq(|segments|, i requires 0 <= i < |segments| => segments[i].text)
  }
}
