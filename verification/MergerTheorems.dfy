/** What merging keeps, drops and orders (app/stt/merger.py:17-94). */
module MergerTheorems {
  import opened Options
  import opened Chunks
  import opened TimeMap
  import opened Text
  import opened Sorting
  import opened Merger
  import opened Vad
  import opened Grouping
  import opened ChunkTheorems

  // ---------------------------------------------------------------- candidates

  /** `c` is the provider's segment in source time, field by field: the stripped text, the mapped start, the mapped end
      but never before the start, and speaker and confidence as given. */
  ghost predicate IsInSourceTime(raw: ProviderSegment, m: seq<Mapping>, c: MergedSegment) {
    var end := MapChunkTime(if raw.end.Some? then raw.end.value else 0.0, m);
    && c.text == Strip(if raw.text.Some? then raw.text.value else "")
    && c.start == MapChunkTime(if raw.start.Some? then raw.start.value else 0.0, m)
    && c.end == (if end >= c.start then end else c.start)
    && c.speaker == (if raw.speaker == Some("") then None else raw.speaker)
    && c.confidence == raw.confidence
  }

  lemma CandidateFields(raw: ProviderSegment, m: seq<Mapping>, c: MergedSegment)
    ensures IsInSourceTime(raw, m, c) <==> c == Candidate(raw, m)
  {
  }

  ghost predicate Provides(segments: seq<ProviderSegment>, m: seq<Mapping>, c: MergedSegment) {
    exists s {:trigger segments[s]} :: 0 <= s < |segments| && IsInSourceTime(segments[s], m, c)
  }

  lemma {:induction false} SegmentOf(segments: seq<ProviderSegment>, m: seq<Mapping>, c: MergedSegment)
    returns (s: nat)
    requires c in FromChunk(segments, m)
    ensures s < |segments| && c == Candidate(segments[s], m) && c.text != ""
  {
    s := |segments| - 1;
    if c != Candidate(segments[s], m) || c.text == "" {
      s := SegmentOf(segments[..s], m, c);
    }
  }

  lemma {:induction false} SegmentGives(segments: seq<ProviderSegment>, m: seq<Mapping>, s: nat)
    requires s < |segments| && Candidate(segments[s], m).text != ""
    ensures Candidate(segments[s], m) in FromChunk(segments, m)
    decreases |segments|
  {
    if s < |segments| - 1 {
      SegmentGives(segments[..|segments| - 1], m, s);
    }
  }

  lemma FromChunkOrigin(segments: seq<ProviderSegment>, m: seq<Mapping>, c: MergedSegment)
    ensures c in FromChunk(segments, m) <==> c.text != "" && Provides(segments, m, c)
  {
    if c in FromChunk(segments, m) {
      var s := SegmentOf(segments, m, c);
      CandidateFields(segments[s], m, c);
    }
    forall s | 0 <= s < |segments| && IsInSourceTime(segments[s], m, c) && c.text != ""
      ensures c in FromChunk(segments, m)
    {
      CandidateFields(segments[s], m, c);
      SegmentGives(segments, m, s);
    }
  }

  lemma {:induction false} FoundInChunk(chunks: seq<ChunkResult>, c: MergedSegment) returns (k: nat)
    requires c in Candidates(chunks)
    ensures k < |chunks| && c in FromChunk(chunks[k].segments, chunks[k].mappings)
  {
    k := |chunks| - 1;
    if c !in FromChunk(chunks[k].segments, chunks[k].mappings) {
      k := FoundInChunk(chunks[..k], c);
    }
  }

  lemma {:induction false} FoundInAll(chunks: seq<ChunkResult>, k: nat, c: MergedSegment)
    requires k < |chunks| && c in FromChunk(chunks[k].segments, chunks[k].mappings)
    ensures c in Candidates(chunks)
    decreases |chunks|
  {
    if k < |chunks| - 1 {
      FoundInAll(chunks[..|chunks| - 1], k, c);
    }
  }

  /** The candidates are exactly the provider segments with text, in source time. */
  lemma CandidateOrigin(chunks: seq<ChunkResult>, c: MergedSegment)
    ensures c in Candidates(chunks)
       <==> c.text != "" && exists k :: 0 <= k < |chunks| && Provides(chunks[k].segments, chunks[k].mappings, c)
  {
    if c in Candidates(chunks) {
      var k := FoundInChunk(chunks, c);
      FromChunkOrigin(chunks[k].segments, chunks[k].mappings, c);
    }
    forall k | 0 <= k < |chunks| && c.text != "" && Provides(chunks[k].segments, chunks[k].mappings, c)
      ensures c in Candidates(chunks)
    {
      FromChunkOrigin(chunks[k].segments, chunks[k].mappings, c);
      FoundInAll(chunks, k, c);
    }
  }

  // ---------------------------------------------------------------- runs of duplicates

  lemma CollapsePrefix(cands: seq<MergedSegment>, i: nat, normalize: string -> string, slack: real)
    requires 0 < i <= |cands|
    ensures Collapse(cands[..i], normalize, slack)
         == Add(Collapse(cands[..i - 1], normalize, slack), cands[i - 1], normalize, slack)
  {
    assert cands[..i][..i - 1] == cands[..i - 1];
  }

  lemma WinnerPrefix(cands: seq<MergedSegment>, lo: nat, i: nat)
    requires lo < i <= |cands|
    ensures Winner(cands[lo..i]) == if i == lo + 1 then cands[lo] else Prefer(Winner(cands[lo..i - 1]), cands[i - 1])
  {
    if i > lo + 1 {
      assert cands[lo..i][..i - 1 - lo] == cands[lo..i - 1];
    }
  }

  lemma StartRun(cands: seq<MergedSegment>, lo: nat, done: seq<MergedSegment>, normalize: string -> string, slack: real)
    requires lo < |cands| && Collapse(cands[..lo], normalize, slack) == done
    requires done == [] || !IsExactDuplicate(done[|done| - 1], cands[lo], normalize, slack)
    ensures Collapse(cands[..lo + 1], normalize, slack) == done + [Winner(cands[lo..lo + 1])]
  {
    CollapsePrefix(cands, lo + 1, normalize, slack);
    WinnerPrefix(cands, lo, lo + 1);
  }

  lemma ContinueRun(cands: seq<MergedSegment>, lo: nat, i: nat, done: seq<MergedSegment>, normalize: string -> string,
                    slack: real)
    requires lo < i < |cands| && Repeats(cands, lo, i, normalize, slack)
    requires Collapse(cands[..i], normalize, slack) == done + [Winner(cands[lo..i])]
    ensures Collapse(cands[..i + 1], normalize, slack) == done + [Winner(cands[lo..i + 1])]
  {
    CollapsePrefix(cands, i + 1, normalize, slack);
    WinnerPrefix(cands, lo, i + 1);
  }

  /** Up to item `i` of run `k` the loop has built the earlier runs' bests and the best so far. */
  lemma {:induction false} RunsDetermine(cands: seq<MergedSegment>, cuts: seq<nat>, merged: seq<MergedSegment>,
                                         k: nat, i: nat, normalize: string -> string, slack: real)
    requires IsCollapse(cands, cuts, merged, normalize, slack) && k < |merged|
    requires RunAt(cands, cuts, merged, k, normalize, slack) && cuts[k] < i <= cuts[k + 1]
    ensures Collapse(cands[..i], normalize, slack) == merged[..k] + [Winner(cands[cuts[k]..i])]
    decreases k, i
  {
    var lo, p := cuts[k], i - 1;
    if p > lo {
      RunsDetermine(cands, cuts, merged, k, p, normalize, slack);
      assert Repeats(cands, lo, p, normalize, slack);
      ContinueRun(cands, lo, p, merged[..k], normalize, slack);
    } else {
      RunsBefore(cands, cuts, merged, k, normalize, slack);
      StartRun(cands, lo, merged[..k], normalize, slack);
    }
  }

  lemma {:induction false} RunsBefore(cands: seq<MergedSegment>, cuts: seq<nat>, merged: seq<MergedSegment>, k: nat,
                                      normalize: string -> string, slack: real)
    requires IsCollapse(cands, cuts, merged, normalize, slack) && k < |merged|
    requires RunAt(cands, cuts, merged, k, normalize, slack)
    ensures Collapse(cands[..cuts[k]], normalize, slack) == merged[..k]
    ensures k > 0 ==> !IsExactDuplicate(merged[k - 1], cands[cuts[k]], normalize, slack)
    decreases k, 0
  {
    if k > 0 {
      var h := k - 1;
      assert RunAt(cands, cuts, merged, h, normalize, slack);
      RunsDetermine(cands, cuts, merged, h, cuts[k], normalize, slack);
      assert merged[..k] == merged[..h] + [merged[h]];
    }
  }

  /** The loop's list is the only one that divides the candidates into maximal runs and keeps the best of each. */
  lemma CollapseUnique(cands: seq<MergedSegment>, cuts: seq<nat>, merged: seq<MergedSegment>,
                       normalize: string -> string, slack: real)
    requires IsCollapse(cands, cuts, merged, normalize, slack)
    ensures merged == Collapse(cands, normalize, slack)
  {
    var n := |merged|;
    if n > 0 {
      assert RunAt(cands, cuts, merged, n - 1, normalize, slack);
      RunsDetermine(cands, cuts, merged, n - 1, |cands|, normalize, slack);
      assert cands[..|cands|] == cands;
      assert merged == merged[..n - 1] + [merged[n - 1]];
    }
  }

  lemma {:induction false} RunUnchanged(cands: seq<MergedSegment>, lo: nat, hi: nat, c: MergedSegment,
                                        normalize: string -> string, slack: real)
    requires IsRun(cands, lo, hi, normalize, slack)
    ensures IsRun(cands + [c], lo, hi, normalize, slack)
    ensures Winner((cands + [c])[lo..hi]) == Winner(cands[lo..hi])
  {
    var all := cands + [c];
    assert all[lo..hi] == cands[lo..hi];
    forall i | lo < i < hi ensures Repeats(all, lo, i, normalize, slack) {
      assert Repeats(cands, lo, i, normalize, slack);
      assert all[lo..i] == cands[lo..i];
    }
  }

  lemma RunGrows(cands: seq<MergedSegment>, lo: nat, c: MergedSegment, normalize: string -> string, slack: real)
    requires IsRun(cands, lo, |cands|, normalize, slack)
    requires IsExactDuplicate(Winner(cands[lo..|cands|]), c, normalize, slack)
    ensures IsRun(cands + [c], lo, |cands| + 1, normalize, slack)
    ensures Winner((cands + [c])[lo..|cands| + 1]) == Prefer(Winner(cands[lo..|cands|]), c)
  {
    var all := cands + [c];
    RunUnchanged(cands, lo, |cands|, c, normalize, slack);
    forall i | lo < i < |cands| + 1 ensures Repeats(all, lo, i, normalize, slack) {
      if i == |cands| {
        assert all[lo..i] == cands[lo..|cands|];
      } else {
        assert Repeats(all, lo, i, normalize, slack);
      }
    }
    WinnerPrefix(all, lo, |cands| + 1);
    assert all[lo..|cands|] == cands[lo..|cands|];
  }

  /** The loop's list does divide the candidates that way. */
  lemma {:induction false} CollapseIsRuns(cands: seq<MergedSegment>, normalize: string -> string, slack: real)
    returns (cuts: seq<nat>)
    ensures IsCollapse(cands, cuts, Collapse(cands, normalize, slack), normalize, slack)
  {
    if cands == [] {
      cuts := [0];
    } else {
      var n := |cands| - 1;
      var before := CollapseIsRuns(cands[..n], normalize, slack);
      assert cands == cands[..n] + [cands[n]];
      cuts := ExtendRuns(cands[..n], before, cands[n], normalize, slack);
    }
  }

  /** Earlier runs are runs of the longer list, and still maximal. */
  lemma RunStays(cands: seq<MergedSegment>, before: seq<nat>, merged: seq<MergedSegment>, c: MergedSegment, k: nat,
                 normalize: string -> string, slack: real)
    requires |before| == |merged| + 1 && before[|merged|] == |cands| && k < |merged|
    requires RunAt(cands, before, merged, k, normalize, slack)
    requires k < |merged| - 1 ==> RunAt(cands, before, merged, k + 1, normalize, slack)
    requires k == |merged| - 1 ==> !IsExactDuplicate(merged[k], c, normalize, slack)
    ensures IsRun(cands + [c], before[k], before[k + 1], normalize, slack)
    ensures merged[k] == Winner((cands + [c])[before[k]..before[k + 1]])
    ensures before[k + 1] < |cands| + 1
    ensures !IsExactDuplicate(merged[k], (cands + [c])[before[k + 1]], normalize, slack)
  {
    RunUnchanged(cands, before[k], before[k + 1], c, normalize, slack);
  }

  lemma ExtendRuns(cands: seq<MergedSegment>, before: seq<nat>, c: MergedSegment,
                   normalize: string -> string, slack: real) returns (cuts: seq<nat>)
    requires IsCollapse(cands, before, Collapse(cands, normalize, slack), normalize, slack)
    ensures IsCollapse(cands + [c], cuts, Collapse(cands + [c], normalize, slack), normalize, slack)
  {
    var merged, all := Collapse(cands, normalize, slack), cands + [c];
    CollapseAppend(cands, c, normalize, slack);
    if merged != [] && IsExactDuplicate(merged[|merged| - 1], c, normalize, slack) {
      cuts := LastRunGrows(cands, before, merged, c, normalize, slack);
    } else {
      cuts := NewRun(cands, before, merged, c, normalize, slack);
    }
  }

  lemma LastRunGrows(cands: seq<MergedSegment>, before: seq<nat>, merged: seq<MergedSegment>, c: MergedSegment,
                     normalize: string -> string, slack: real) returns (cuts: seq<nat>)
    requires IsCollapse(cands, before, merged, normalize, slack)
    requires merged != [] && IsExactDuplicate(merged[|merged| - 1], c, normalize, slack)
    ensures IsCollapse(cands + [c], cuts, Add(merged, c, normalize, slack), normalize, slack)
  {
    var all, after, last := cands + [c], Add(merged, c, normalize, slack), |merged| - 1;
    cuts := before[..last + 1] + [|all|];
    assert RunAt(cands, before, merged, last, normalize, slack);
    RunGrows(cands, before[last], c, normalize, slack);
    assert RunAt(all, cuts, after, last, normalize, slack);
    forall k | 0 <= k < |after| ensures RunAt(all, cuts, after, k, normalize, slack) {
      if k < last {
        assert RunAt(cands, before, merged, k, normalize, slack);
        var next := k + 1;
        assert RunAt(cands, before, merged, next, normalize, slack);
        RunStays(cands, before, merged, c, k, normalize, slack);
      }
    }
  }

  lemma NewRun(cands: seq<MergedSegment>, before: seq<nat>, merged: seq<MergedSegment>, c: MergedSegment,
               normalize: string -> string, slack: real) returns (cuts: seq<nat>)
    requires IsCollapse(cands, before, merged, normalize, slack)
    requires merged == [] || !IsExactDuplicate(merged[|merged| - 1], c, normalize, slack)
    ensures IsCollapse(cands + [c], cuts, Add(merged, c, normalize, slack), normalize, slack)
  {
    var all, after := cands + [c], Add(merged, c, normalize, slack);
    cuts := before + [|all|];
    assert all[|cands|..|all|] == [c];
    assert RunAt(all, cuts, after, |merged|, normalize, slack);
    forall k | 0 <= k < |after| ensures RunAt(all, cuts, after, k, normalize, slack) {
      if k < |merged| {
        assert RunAt(cands, before, merged, k, normalize, slack);
        var next := k + 1;
        assert k < |merged| - 1 ==> RunAt(cands, before, merged, next, normalize, slack);
        RunStays(cands, before, merged, c, k, normalize, slack);
      }
    }
  }

  // ---------------------------------------------------------------- what survives

  lemma {:induction false} CollapseFromCandidates(cands: seq<MergedSegment>, item: MergedSegment,
                                                  normalize: string -> string, slack: real)
    requires item in Collapse(cands, normalize, slack)
    ensures item in cands
  {
    var init, c := cands[..|cands| - 1], cands[|cands| - 1];
    if item != c {
      assert item in Collapse(init, normalize, slack);
      CollapseFromCandidates(init, item, normalize, slack);
    }
  }

  /** Every candidate is represented by an item of the same normalized text. */
  lemma {:induction false} Survivor(cands: seq<MergedSegment>, i: nat, normalize: string -> string, slack: real)
    returns (item: MergedSegment)
    requires i < |cands|
    ensures item in Collapse(cands, normalize, slack) && normalize(item.text) == normalize(cands[i].text)
    decreases |cands|
  {
    var init, c := cands[..|cands| - 1], cands[|cands| - 1];
    var merged := Collapse(init, normalize, slack);
    var after := Collapse(cands, normalize, slack);
    if i == |cands| - 1 {
      item := after[|after| - 1];
    } else {
      item := Survivor(init, i, normalize, slack);
      var k :| 0 <= k < |merged| && merged[k] == item;
      item := after[k];
    }
  }

  ghost predicate StartsOrdered(s: seq<MergedSegment>) {
    forall i, j :: 0 <= i < j < |s| ==> s[i].start <= s[j].start
  }

  /** Items that start together are in order of their ends. */
  ghost predicate TiesOrdered(s: seq<MergedSegment>) {
    forall i, j :: 0 <= i < j < |s| && s[i].start == s[j].start ==> s[i].end <= s[j].end
  }

  /** Neighbours with the same normalized text are more than `slack` apart. */
  ghost predicate NoAdjacentDuplicates(s: seq<MergedSegment>, normalize: string -> string, slack: real) {
    forall i, k :: 0 <= i < |s| && k == i + 1 < |s| ==> Apart(s[i], s[k], normalize, slack)
  }

  /** Candidates in time order collapse to a list in time order without adjacent duplicates. */
  lemma {:induction false} CollapseOrdered(cands: seq<MergedSegment>, normalize: string -> string, slack: real)
    requires StartsOrdered(cands)
    ensures StartsOrdered(Collapse(cands, normalize, slack))
    ensures NoAdjacentDuplicates(Collapse(cands, normalize, slack), normalize, slack)
  {
    if cands != [] {
      var init, c := cands[..|cands| - 1], cands[|cands| - 1];
      CollapseOrdered(init, normalize, slack);
      var merged := Collapse(init, normalize, slack);
      forall k | 0 <= k < |merged| ensures merged[k].start <= c.start {
        CollapseFromCandidates(init, merged[k], normalize, slack);
      }
      AddOrdered(merged, c, normalize, slack);
    }
  }

  lemma AddOrdered(merged: seq<MergedSegment>, c: MergedSegment, normalize: string -> string, slack: real)
    requires StartsOrdered(merged) && NoAdjacentDuplicates(merged, normalize, slack)
    requires forall k :: 0 <= k < |merged| ==> merged[k].start <= c.start
    ensures StartsOrdered(Add(merged, c, normalize, slack))
    ensures NoAdjacentDuplicates(Add(merged, c, normalize, slack), normalize, slack)
  {
  }

  lemma CandidateSpeaker(chunks: seq<ChunkResult>, c: MergedSegment)
    requires c in Candidates(chunks)
    ensures c.text != "" && c.speaker != Some("")
  {
    CandidateOrigin(chunks, c);
  }

  /** An item of the merged transcript is a candidate with text. */
  lemma MergedItem(chunks: seq<ChunkResult>, normalize: string -> string, slack: real, item: MergedSegment)
    requires item in MergedOf(chunks, normalize, slack)
    ensures item in Candidates(chunks) && item.text != "" && item.speaker != Some("")
  {
    var merged := Collapse(Candidates(chunks), normalize, slack);
    SortIsSorted(merged, ByTime);
    SameMembers(StableSort(merged, ByTime), merged, item);
    CollapseFromCandidates(Candidates(chunks), item, normalize, slack);
    CandidateSpeaker(chunks, item);
  }

  lemma MergedOrder(chunks: seq<ChunkResult>, normalize: string -> string, slack: real, result: seq<MergedSegment>)
    requires result == MergedOf(chunks, normalize, slack)
    ensures Sorted(result, ByTime) && StartsOrdered(result) && TiesOrdered(result)
  {
    SortIsSorted(Collapse(Candidates(chunks), normalize, slack), ByTime);
  }

  /** The merged transcript: in order of time, made of provider segments with text, and no text is lost. */
  lemma MergedTranscript(chunks: seq<ChunkResult>, normalize: string -> string, slack: real,
                         result: seq<MergedSegment>)
    requires result == MergedOf(chunks, normalize, slack)
    ensures Sorted(result, ByTime) && StartsOrdered(result) && TiesOrdered(result)
    ensures forall item :: item in result ==>
              && item in Candidates(chunks) && item.text != "" && item.start <= item.end
    ensures forall c :: c in Candidates(chunks) ==>
              exists item :: item in result && normalize(item.text) == normalize(c.text)
  {
    var cands := Candidates(chunks);
    var merged := Collapse(cands, normalize, slack);
    MergedOrder(chunks, normalize, slack, result);
    SortIsSorted(merged, ByTime);
    forall item | item in result
      ensures item in Candidates(chunks) && item.text != "" && item.start <= item.end
    {
      SameMembers(result, merged, item);
      CollapseFromCandidates(cands, item, normalize, slack);
      CandidateOrigin(chunks, item);
    }
    forall c | c in cands ensures exists item :: item in result && normalize(item.text) == normalize(c.text) {
      var item := SurvivorInAll(chunks, normalize, slack, c);
    }
  }

  /** Every item of the merged transcript is some provider segment of some chunk in source time. */
  lemma MergedFields(chunks: seq<ChunkResult>, normalize: string -> string, slack: real, item: MergedSegment)
    returns (k: nat, s: nat)
    requires item in MergedOf(chunks, normalize, slack)
    ensures k < |chunks| && s < |chunks[k].segments| && item.text != ""
    ensures IsInSourceTime(chunks[k].segments[s], chunks[k].mappings, item)
  {
    MergedItem(chunks, normalize, slack, item);
    CandidateOrigin(chunks, item);
    k :| k < |chunks| && Provides(chunks[k].segments, chunks[k].mappings, item);
    s :| s < |chunks[k].segments| && IsInSourceTime(chunks[k].segments[s], chunks[k].mappings, item);
  }

  lemma CandidateInAll(chunks: seq<ChunkResult>, k: nat, s: nat) returns (c: MergedSegment)
    requires k < |chunks| && s < |chunks[k].segments| && chunks[k].segments[s].text.Some?
    requires Strip(chunks[k].segments[s].text.value) != ""
    ensures c in Candidates(chunks) && c.text == Strip(chunks[k].segments[s].text.value)
  {
    var segments, m := chunks[k].segments, chunks[k].mappings;
    c := Candidate(segments[s], m);
    SegmentGives(segments, m, s);
    FoundInAll(chunks, k, c);
  }

  lemma SurvivorInAll(chunks: seq<ChunkResult>, normalize: string -> string, slack: real, c: MergedSegment)
    returns (item: MergedSegment)
    requires c in Candidates(chunks)
    ensures item in MergedOf(chunks, normalize, slack) && normalize(item.text) == normalize(c.text)
  {
    var cands := Candidates(chunks);
    var merged := Collapse(cands, normalize, slack);
    SortIsSorted(merged, ByTime);
    var i :| 0 <= i < |cands| && cands[i] == c;
    item := Survivor(cands, i, normalize, slack);
    SameMembers(MergedOf(chunks, normalize, slack), merged, item);
  }

  /** Every provider segment with text is in it, or a segment with the same normalized text in its place. */
  lemma TextSurvives(chunks: seq<ChunkResult>, normalize: string -> string, slack: real, k: nat, s: nat)
    returns (item: MergedSegment)
    requires k < |chunks| && s < |chunks[k].segments| && chunks[k].segments[s].text.Some?
    requires Strip(chunks[k].segments[s].text.value) != ""
    ensures item in MergedOf(chunks, normalize, slack)
    ensures normalize(item.text) == normalize(Strip(chunks[k].segments[s].text.value))
  {
    var c := CandidateInAll(chunks, k, s);
    item := SurvivorInAll(chunks, normalize, slack, c);
  }

  /** A provider time within a written segment comes out as that segment's own source instant. */
  lemma ProviderInstant(raw: ProviderSegment, m: seq<Mapping>, gap: real, q: nat, c: MergedSegment)
    requires WellFormed(m, gap) && q < |m| && IsInSourceTime(raw, m, c)
    ensures raw.start.Some? && m[q].chunkStart <= raw.start.value <= m[q].chunkEnd
            && (q == 0 || gap > 0.0 || raw.start.value > m[q].chunkStart) ==>
              c.start == m[q].sourceStart + (raw.start.value - m[q].chunkStart)
    ensures raw.start.Some? && raw.end.Some? && 0.0 <= raw.start.value <= raw.end.value
            && m[q].chunkStart <= raw.end.value <= m[q].chunkEnd
            && (q == 0 || gap > 0.0 || raw.end.value > m[q].chunkStart) ==>
              c.end == m[q].sourceStart + (raw.end.value - m[q].chunkStart)
  {
    if raw.start.Some? && m[q].chunkStart <= raw.start.value <= m[q].chunkEnd {
      SegmentTimesInvert(raw.start.value, m, gap, q);
    }
    if raw.end.Some? && m[q].chunkStart <= raw.end.value <= m[q].chunkEnd {
      SegmentTimesInvert(raw.end.value, m, gap, q);
      if raw.start.Some? && 0.0 <= raw.start.value <= raw.end.value {
        MapIsMonotone(raw.start.value, raw.end.value, m, gap);
      }
    }
  }

  // ---------------------------------------------------------------- which duplicate is kept

  predicate MoreConfident(a: MergedSegment, b: MergedSegment) {
    a.confidence.Some? && (b.confidence.None? || a.confidence.value > b.confidence.value)
  }

  /** Among duplicates of one length the first of the most confident ones is kept. */
  lemma {:induction false} WinnerOfEqualLengths(run: seq<MergedSegment>) returns (w: nat)
    requires run != [] && forall i, k :: 0 <= i < |run| && 0 <= k < |run| ==> |run[i].text| == |run[k].text|
    ensures w < |run| && Winner(run) == run[w]
    ensures forall k :: 0 <= k < |run| ==> !MoreConfident(run[k], run[w])
    ensures forall k :: 0 <= k < w ==> MoreConfident(run[w], run[k])
  {
    w := 0;
    if |run| > 1 {
      var last := |run| - 1;
      var v := WinnerOfEqualLengths(run[..last]);
      w := if MoreConfident(run[last], run[v]) then last else v;
    }
  }

  /** Among duplicates without a confidence the first of the longest ones is kept. */
  lemma {:induction false} WinnerWithoutConfidence(run: seq<MergedSegment>) returns (w: nat)
    requires run != [] && forall k :: 0 <= k < |run| ==> run[k].confidence.None?
    ensures w < |run| && Winner(run) == run[w]
    ensures forall k :: 0 <= k < |run| ==> |run[k].text| <= |run[w].text|
    ensures forall k :: 0 <= k < w ==> |run[k].text| < |run[w].text|
  {
    w := 0;
    if |run| > 1 {
      var last := |run| - 1;
      var v := WinnerWithoutConfidence(run[..last]);
      w := if |run[last].text| > |run[v].text| then last else v;
    }
  }

  /** Item `t` is the last of the most confident of a run. */
  ghost predicate LastMostConfident(run: seq<MergedSegment>, t: nat) {
    && t < |run|
    && (forall k :: 0 <= k < |run| ==> !MoreConfident(run[k], run[t]))
    && forall k :: t < k < |run| ==> MoreConfident(run[t], run[k])
  }

  lemma {:induction false} WinnerIsMember(run: seq<MergedSegment>)
    requires run != []
    ensures Winner(run) in run
  {
    if |run| > 1 {
      WinnerIsMember(run[..|run| - 1]);
    }
  }

  /** Up to the last most confident item a most confident one is kept. */
  lemma WinnerUpToMost(run: seq<MergedSegment>, t: nat)
    requires LastMostConfident(run, t) && t == |run| - 1
    ensures !MoreConfident(run[t], Winner(run))
  {
    if t > 0 {
      WinnerIsMember(run[..t]);
      var k :| 0 <= k < t && run[k] == Winner(run[..t]);
      assert !MoreConfident(run[k], run[t]);
    }
  }

  /** A run keeps a most confident item exactly when no item after the last of the most confident ones is longer than
      the one kept up to there; it then keeps that one. Otherwise a less confident item is kept. */
  lemma {:induction false} LessConfidentKept(run: seq<MergedSegment>, t: nat)
    requires LastMostConfident(run, t)
    ensures !MoreConfident(run[t], Winner(run))
       <==> forall k :: t < k < |run| ==> |run[k].text| <= |Winner(run[..t + 1]).text|
    ensures !MoreConfident(run[t], Winner(run)) ==> Winner(run) == Winner(run[..t + 1])
  {
    var last := |run| - 1;
    if t == last {
      assert run[..t + 1] == run;
      WinnerUpToMost(run, t);
    } else {
      var init := run[..last];
      assert init[..t + 1] == run[..t + 1];
      LessConfidentKept(init, t);
      assert MoreConfident(run[t], run[last]);
    }
  }

  /** A run that keeps the less confident item: it came later and is longer. */
  lemma LessConfidentExample()
    ensures var sure := MergedSegment(0.0, 1.0, "ab", None, Some(0.9));
            var unsure := MergedSegment(1.0, 2.0, "abc", None, Some(0.8));
            MoreConfident(sure, unsure) && Winner([sure, unsure]) == unsure && Winner([unsure, sure]) == sure
  {
    var sure := MergedSegment(0.0, 1.0, "ab", None, Some(0.9));
    var unsure := MergedSegment(1.0, 2.0, "abc", None, Some(0.8));
    assert [sure, unsure][..1] == [sure] && [unsure, sure][..1] == [unsure];
  }

  /** Every run has one such item. */
  lemma {:induction false} MostConfidentExists(run: seq<MergedSegment>) returns (t: nat)
    requires run != []
    ensures LastMostConfident(run, t)
  {
    t := 0;
    if |run| > 1 {
      var last := |run| - 1;
      var v := MostConfidentExists(run[..last]);
      t := if MoreConfident(run[v], run[last]) then v else last;
    }
  }

  // ---------------------------------------------------------------- candidates of ordered chunks come in order

  function StartOf(raw: ProviderSegment): real {
    ValueOr(raw.start, 0.0)
  }

  /** The provider's times within one chunk: from the chunk's start on, and in order. */
  ghost predicate TimesOrdered(segments: seq<ProviderSegment>) {
    && (forall i {:trigger StartOf(segments[i])} :: 0 <= i < |segments| ==> StartOf(segments[i]) >= 0.0)
    && (forall i, j {:trigger StartOf(segments[i]), StartOf(segments[j])} :: 0 <= i < j < |segments| ==>
          StartOf(segments[i]) <= StartOf(segments[j]))
  }

  /** Chunk `k` has a well-formed time map that begins where the previous chunk's has ended, or later. */
  ghost predicate ChunkFollows(chunks: seq<ChunkResult>, gap: real, k: nat)
    requires k < |chunks|
  {
    var m := chunks[k].mappings;
    && WellFormed(m, gap) && TimesOrdered(chunks[k].segments)
    && (k > 0 ==> var p := chunks[k - 1].mappings; p != [] && p[|p| - 1].sourceEnd <= m[0].sourceStart)
  }

  ghost predicate ChunksOrdered(chunks: seq<ChunkResult>, gap: real) {
    forall k {:trigger ChunkFollows(chunks, gap, k)} :: 0 <= k < |chunks| ==> ChunkFollows(chunks, gap, k)
  }

  ghost predicate StartsWithin(s: seq<MergedSegment>, lo: real, hi: real) {
    forall i :: 0 <= i < |s| ==> lo <= s[i].start <= hi
  }

  lemma {:induction false} ChunkInRange(segments: seq<ProviderSegment>, m: seq<Mapping>, gap: real)
    requires WellFormed(m, gap)
    ensures StartsWithin(FromChunk(segments, m), m[0].sourceStart, m[|m| - 1].sourceEnd)
  {
    if segments != [] {
      var last := |segments| - 1;
      ChunkInRange(segments[..last], m, gap);
      MapStaysInRange(StartOf(segments[last]), m, gap);
    }
  }

  lemma {:induction false} StartsBelow(segments: seq<ProviderSegment>, m: seq<Mapping>, gap: real, bound: real)
    requires WellFormed(m, gap) && bound >= 0.0
    requires forall i {:trigger StartOf(segments[i])} :: 0 <= i < |segments| ==> 0.0 <= StartOf(segments[i]) <= bound
    ensures forall c :: c in FromChunk(segments, m) ==> c.start <= MapChunkTime(bound, m)
  {
    if segments != [] {
      var last := |segments| - 1;
      assert 0.0 <= StartOf(segments[last]) <= bound;
      forall i | 0 <= i < last ensures 0.0 <= StartOf(segments[..last][i]) <= bound {
        assert 0.0 <= StartOf(segments[i]) <= bound;
      }
      StartsBelow(segments[..last], m, gap, bound);
      MapIsMonotone(StartOf(segments[last]), bound, m, gap);
    }
  }

  lemma InitOrdered(segments: seq<ProviderSegment>)
    requires segments != [] && TimesOrdered(segments)
    ensures TimesOrdered(segments[..|segments| - 1])
  {
    var init := segments[..|segments| - 1];
    forall i | 0 <= i < |init| ensures StartOf(init[i]) >= 0.0 {
      assert StartOf(segments[i]) >= 0.0;
    }
    forall i, j | 0 <= i < j < |init| ensures StartOf(init[i]) <= StartOf(init[j]) {
      assert StartOf(segments[i]) <= StartOf(segments[j]);
    }
  }

  lemma {:induction false} ChunkOrdered(segments: seq<ProviderSegment>, m: seq<Mapping>, gap: real)
    requires WellFormed(m, gap) && TimesOrdered(segments)
    ensures StartsOrdered(FromChunk(segments, m))
  {
    if segments != [] {
      var last := |segments| - 1;
      InitOrdered(segments);
      ChunkOrdered(segments[..last], m, gap);
      var bound := StartOf(segments[last]);
      forall i | 0 <= i < last ensures 0.0 <= StartOf(segments[..last][i]) <= bound {
        assert 0.0 <= StartOf(segments[i]) <= bound;
      }
      StartsBelow(segments[..last], m, gap, bound);
    }
  }

  lemma InitFollows(chunks: seq<ChunkResult>, gap: real)
    requires chunks != [] && ChunksOrdered(chunks, gap)
    ensures ChunksOrdered(chunks[..|chunks| - 1], gap)
  {
    var init := chunks[..|chunks| - 1];
    forall k | 0 <= k < |init| ensures ChunkFollows(init, gap, k) {
      assert ChunkFollows(chunks, gap, k);
    }
  }

  lemma RangeNotEmpty(m: seq<Mapping>, gap: real)
    requires WellFormed(m, gap)
    ensures m[0].sourceStart <= m[|m| - 1].sourceEnd
  {
    MapStaysInRange(0.0, m, gap);
  }

  /** With the writer's time maps and provider times in order within each chunk, all candidates come in time order. */
  lemma {:induction false} CandidatesOrdered(chunks: seq<ChunkResult>, gap: real)
    requires ChunksOrdered(chunks, gap) && chunks != []
    ensures chunks[0].mappings != [] && chunks[|chunks| - 1].mappings != []
    ensures StartsOrdered(Candidates(chunks))
    ensures var m := chunks[|chunks| - 1].mappings;
            && StartsWithin(Candidates(chunks), chunks[0].mappings[0].sourceStart, m[|m| - 1].sourceEnd)
            && chunks[0].mappings[0].sourceStart <= m[|m| - 1].sourceEnd
  {
    var last := |chunks| - 1;
    var m, segments := chunks[last].mappings, chunks[last].segments;
    assert ChunkFollows(chunks, gap, last);
    ChunkOrdered(segments, m, gap);
    ChunkInRange(segments, m, gap);
    RangeNotEmpty(m, gap);
    var own := FromChunk(segments, m);
    if last == 0 {
      assert Candidates(chunks) == own;
    } else {
      InitFollows(chunks, gap);
      var init, h := chunks[..last], last - 1;
      CandidatesOrdered(init, gap);
      assert init[h] == chunks[h] && init[0] == chunks[0];
      AppendChunk(Candidates(init), own, chunks[0].mappings[0].sourceStart, chunks[h].mappings, m, gap);
    }
  }

  lemma AppendChunk(before: seq<MergedSegment>, own: seq<MergedSegment>, lo: real, p: seq<Mapping>, m: seq<Mapping>,
                    gap: real)
    requires p != [] && WellFormed(m, gap) && p[|p| - 1].sourceEnd <= m[0].sourceStart
    requires StartsOrdered(before) && StartsWithin(before, lo, p[|p| - 1].sourceEnd)
    requires StartsOrdered(own) && StartsWithin(own, m[0].sourceStart, m[|m| - 1].sourceEnd)
    requires lo <= p[|p| - 1].sourceEnd
    ensures StartsOrdered(before + own) && StartsWithin(before + own, lo, m[|m| - 1].sourceEnd)
  {
    RangeNotEmpty(m, gap);
  }

  lemma GroupsFollow(before: seq<seq<Frame>>, p: seq<Mapping>, group: seq<seq<Frame>>, m: seq<Mapping>, gap: nat)
    requires before != [] && MapsGroup(before, gap, p)
    requires group != [] && MapsGroup(group, gap, m)
    requires before[|before| - 1] != [] && group[0] != [] && Last(before[|before| - 1]) <= First(group[0])
    ensures p[|p| - 1].sourceEnd <= m[0].sourceStart
  {
    var last := |before| - 1;
    assert MapsAt(before, gap, p, last) && MapsAt(group, gap, m, 0);
  }

  lemma GroupWellFormed(audio: seq<int>, speech: seq<seq<Frame>>, limit: nat, gap: nat,
                        groups: seq<seq<seq<Frame>>>, c: nat, m: seq<Mapping>)
    requires InOrder(audio, speech) && groups == Greedy(Pieces(speech, limit), SegmentLength, gap, limit)
    requires c < |groups| && MapsGroup(groups[c], gap, m)
    ensures WellFormed(m, gap as real)
  {
    ChunkInOrder(audio, speech, limit, gap, groups, c);
    WriterMappings(audio, groups[c], gap, m);
  }

  lemma GroupFollows(audio: seq<int>, speech: seq<seq<Frame>>, limit: nat, gap: nat,
                     groups: seq<seq<seq<Frame>>>, c: nat, p: seq<Mapping>, m: seq<Mapping>)
    requires InOrder(audio, speech) && groups == Greedy(Pieces(speech, limit), SegmentLength, gap, limit)
    requires 0 < c < |groups| && MapsGroup(groups[c - 1], gap, p) && MapsGroup(groups[c], gap, m)
    ensures p != [] && m != [] && p[|p| - 1].sourceEnd <= m[0].sourceStart
  {
    ChunkInOrder(audio, speech, limit, gap, groups, c - 1);
    ChunkInOrder(audio, speech, limit, gap, groups, c);
    GroupsFollow(groups[c - 1], p, groups[c], m, gap);
  }

  /** A recording's chunks as the writer maps them, transcribed with times in order within each chunk. */
  ghost predicate Transcribed(groups: seq<seq<seq<Frame>>>, gap: nat, chunks: seq<ChunkResult>, c: nat)
    requires c < |groups| == |chunks|
  {
    MapsGroup(groups[c], gap, chunks[c].mappings) && TimesOrdered(chunks[c].segments)
  }

  /** Audio to transcript: the chunks cut from one recording merge in time order without adjacent duplicates. */
  lemma RecordingMergesInOrder(audio: seq<int>, speech: seq<seq<Frame>>, limit: nat, gap: nat,
                               groups: seq<seq<seq<Frame>>>, chunks: seq<ChunkResult>,
                               normalize: string -> string, slack: real)
    requires InOrder(audio, speech) && groups == Greedy(Pieces(speech, limit), SegmentLength, gap, limit)
    requires |chunks| == |groups|
    requires forall c {:trigger Transcribed(groups, gap, chunks, c)} :: 0 <= c < |chunks| ==>
               Transcribed(groups, gap, chunks, c)
    ensures StartsOrdered(Collapse(Candidates(chunks), normalize, slack))
    ensures NoAdjacentDuplicates(Collapse(Candidates(chunks), normalize, slack), normalize, slack)
  {
    var g := gap as real;
    forall c | 0 <= c < |chunks| ensures ChunkFollows(chunks, g, c) {
      assert Transcribed(groups, gap, chunks, c);
      GroupWellFormed(audio, speech, limit, gap, groups, c, chunks[c].mappings);
      if c > 0 {
        assert Transcribed(groups, gap, chunks, c - 1);
        GroupFollows(audio, speech, limit, gap, groups, c, chunks[c - 1].mappings, chunks[c].mappings);
      }
    }
    if chunks != [] {
      CandidatesOrdered(chunks, g);
    }
    CollapseOrdered(Candidates(chunks), normalize, slack);
  }

  // ---------------------------------------------------------------- the final sort

  /** The final sort leaves a list in order of starts alone exactly when items that start together are in order. */
  lemma SortKeepsOrdered(s: seq<MergedSegment>)
    requires StartsOrdered(s)
    ensures StableSort(s, ByTime) == s <==> TiesOrdered(s)
  {
    SortIsSorted(s, ByTime);
    if TiesOrdered(s) {
      SortOfSorted(s, ByTime);
    }
  }

  /** Some item lies between items `i` and `j` in order of time. */
  ghost predicate Separated(s: seq<MergedSegment>, i: nat, j: nat)
    requires i < |s| && j < |s|
  {
    exists r :: 0 <= r < |s| && Precedes(s, ByTime, i, r) && Precedes(s, ByTime, r, j)
  }

  /** Whichever two items are duplicates, another item lies between them in order of time. */
  ghost predicate DuplicatesSeparated(s: seq<MergedSegment>, normalize: string -> string, slack: real) {
    forall i, j :: 0 <= i < |s| && 0 <= j < |s| && Precedes(s, ByTime, i, j) && !Apart(s[i], s[j], normalize, slack) ==>
      Separated(s, i, j)
  }

  /** The sorted transcript has no adjacent duplicates exactly when that is so in the list before the sort. */
  lemma SortedApartExactly(s: seq<MergedSegment>, normalize: string -> string, slack: real)
    ensures NoAdjacentDuplicates(StableSort(s, ByTime), normalize, slack) <==> DuplicatesSeparated(s, normalize, slack)
  {
    var at := SortPlaces(s, ByTime);
    if DuplicatesSeparated(s, normalize, slack) {
      forall k, l | 0 <= k < |s| && l == k + 1 < |s| ensures Apart(s[at[k]], s[at[l]], normalize, slack) {
        NeighboursNotSeparated(s, at, k);
        assert Precedes(s, ByTime, at[k], at[l]);
      }
    }
    if NoAdjacentDuplicates(StableSort(s, ByTime), normalize, slack) {
      forall i, j | 0 <= i < |s| && 0 <= j < |s| && Precedes(s, ByTime, i, j) && !Apart(s[i], s[j], normalize, slack)
        ensures Separated(s, i, j)
      {
        var a, b := PlacesInOrder(s, at, i, j);
        var next := a + 1;
        if next < b {
          assert Precedes(s, ByTime, at[a], at[next]) && Precedes(s, ByTime, at[next], at[b]);
        }
      }
    }
  }

  lemma NeighboursNotSeparated(s: seq<MergedSegment>, at: seq<nat>, k: nat)
    requires IsOrder(s, ByTime, at) && k + 1 < |at|
    ensures !Separated(s, at[k], at[k + 1])
  {
    forall r | 0 <= r < |s| ensures !(Precedes(s, ByTime, at[k], r) && Precedes(s, ByTime, r, at[k + 1])) {
      assert r in at;
      var q: nat :| q < |at| && at[q] == r;
      OrderExactly(s, ByTime, at, k, q);
      OrderExactly(s, ByTime, at, q, k + 1);
    }
  }

  lemma PlacesInOrder(s: seq<MergedSegment>, at: seq<nat>, i: nat, j: nat) returns (a: nat, b: nat)
    requires IsOrder(s, ByTime, at) && i < |s| && j < |s| && Precedes(s, ByTime, i, j)
    ensures a < b < |at| && at[a] == i && at[b] == j
  {
    assert i in at && j in at;
    a :| a < |at| && at[a] == i;
    b :| b < |at| && at[b] == j;
    OrderExactly(s, ByTime, at, a, b);
  }

  /** The sort can bring duplicates together that the loop kept apart: of two segments that start together, the
      repeated one ends first, so it is moved next to its duplicate. */
  lemma SortJoinsDuplicates(normalize: string -> string)
    requires normalize("x") != normalize("y")
    ensures var a := MergedSegment(0.0, 1.0, "x", None, None);
            var b := MergedSegment(2.0, 5.0, "y", None, None);
            var c := MergedSegment(2.0, 3.0, "x", None, None);
            && Collapse([a, b, c], normalize, 1.0) == [a, b, c]
            && StableSort([a, b, c], ByTime) == [a, c, b]
            && StartsOrdered([a, b, c]) && NoAdjacentDuplicates([a, b, c], normalize, 1.0)
            && !NoAdjacentDuplicates([a, c, b], normalize, 1.0)
  {
    var a := MergedSegment(0.0, 1.0, "x", None, None);
    var b := MergedSegment(2.0, 5.0, "y", None, None);
    var c := MergedSegment(2.0, 3.0, "x", None, None);
    assert [] + [a] == [a] && [a] + [b] == [a, b] && [a, b] + [c] == [a, b, c];
    CollapseAppend([], a, normalize, 1.0);
    CollapseAppend([a], b, normalize, 1.0);
    CollapseAppend([a, b], c, normalize, 1.0);
    assert [a, b, c][..2] == [a, b] && [a, b][..1] == [a] && [a][..0] == [];
    assert StableSort([a], ByTime) == [a] && Insert([a], b, ByTime) == [a, b];
    assert StableSort([a, b], ByTime) == [a, b];
    assert Insert([a], c, ByTime) == [a, c] && Insert([a, b], c, ByTime) == [a, c, b];
    var sorted := [a, c, b];
    assert !Apart(sorted[0], sorted[1], normalize, 1.0);
    forall i, k | 0 <= i < 3 && k == i + 1 < 3 ensures Apart([a, b, c][i], [a, b, c][k], normalize, 1.0) {
      assert i == 0 || i == 1;
    }
  }

  /** The rendered text of segments with text has their texts as its lines exactly when none holds a line break. */
  lemma RenderedLines(segments: seq<MergedSegment>)
    requires forall item :: item in segments ==> item.text != ""
    ensures SplitLines(RenderPlainText(segments)) == TextsOf(segments) <==> AllBreakFree(TextsOf(segments))
  {
    var texts := TextsOf(segments);
    SplitInvertsJoin(texts);
    if segments != [] {
      var last := |segments| - 1;
      assert texts[last] == segments[last].text && segments[last] in segments;
    }
  }
}
