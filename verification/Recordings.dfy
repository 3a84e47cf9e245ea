/** One recording from its audio through the ledger to the stored transcript, in any run of the service. */
module Recordings {
  import opened Ledger
  import opened Transactions
  import opened Commits
  import opened Pipeline
  import opened Runs
  import Vad
  import Chunks
  import ChunkTheorems
  import Grouping
  import Merger
  import MergerTheorems
  import Sorting

  // ---------------------------------------------------------------- what was uploaded stays

  /** The chunk rows are those of the uploaded chunks. */
  ghost predicate RowsOf(chunks: seq<Chunk>, uploads: seq<Upload>) {
    && |chunks| == |uploads|
    && forall i {:trigger chunks[i]} :: 0 <= i < |chunks| ==>
         chunks[i].objectKey == uploads[i].objectKey && chunks[i].mappings == uploads[i].mappings
  }

  /** Step `h` is the commit that split job `j` into these uploads. */
  ghost predicate SplitAt(states: seq<State>, steps: seq<Step>, j: JobId, h: nat)
    requires |states| == |steps| + 1
  {
    h < |steps| && steps[h].PreprocessStep? && steps[h].j == j && Splits(states[h], steps[h])
  }

  lemma RowsKept(a: Job, b: Job, c: Change, uploads: seq<Upload>)
    requires Changed(a, b, c) && a.chunks != [] && RowsOf(a.chunks, uploads)
    ensures RowsOf(b.chunks, uploads)
  {
    forall i | 0 <= i < |b.chunks|
      ensures b.chunks[i].objectKey == uploads[i].objectKey && b.chunks[i].mappings == uploads[i].mappings
    {
      assert a.chunks[i].objectKey == uploads[i].objectKey;
    }
  }

  lemma SplitMakesRows(cfg: Config, s: State, step: Step, j: JobId)
    requires Enabled(s, step) && Splits(s, step) && step.j == j && s.db.jobs[j].totalChunks == 0
    ensures j in Next(cfg, s, step).db.jobs && RowsOf(Next(cfg, s, step).db.jobs[j].chunks, step.uploads)
  {
  }

  lemma NewJobIsEmpty(cfg: Config, states: seq<State>, steps: seq<Step>, k: nat, j: JobId)
    requires IsRun(cfg, states, steps) && k < |steps|
    requires j !in states[k].db.jobs && j in states[k + 1].db.jobs
    ensures states[k + 1].db.jobs[j].chunks == []
  {
    var j', c := RunChange(cfg, states, steps, k);
  }

  /** Only a split gives a job its first chunks. */
  lemma FirstChunksBySplit(a: Job, b: Job, c: Change)
    requires Changed(a, b, c) && a.chunks == [] && b.chunks != []
    ensures c.Prepares?
  {
  }

  /** The first chunks of a job appear by the one commit that splits it. */
  lemma FirstRows(cfg: Config, states: seq<State>, steps: seq<Step>, k: nat, j: JobId)
    requires IsRun(cfg, states, steps) && k < |steps|
    requires j in states[k].db.jobs && states[k].db.jobs[j].chunks == []
    requires j in states[k + 1].db.jobs && states[k + 1].db.jobs[j].chunks != []
    ensures SplitAt(states, steps, j, k) && RowsOf(states[k + 1].db.jobs[j].chunks, steps[k].uploads)
  {
    var c := RunJobChange(cfg, states, steps, k, j);
    FirstChunksBySplit(states[k].db.jobs[j], states[k + 1].db.jobs[j], c);
    RunJobInv(cfg, states, steps, k, j);
    assert StepAt(cfg, states, steps, k);
    SplitMakesRows(cfg, states[k], steps[k], j);
  }

  /** In every state the rows of a job are those of one upload in the run. */
  lemma {:induction false} RowsFromUpload(cfg: Config, states: seq<State>, steps: seq<Step>, k: nat, j: JobId)
    returns (h: nat)
    requires IsRun(cfg, states, steps) && k <= |steps|
    requires j in states[k].db.jobs && states[k].db.jobs[j].chunks != []
    ensures h < k && SplitAt(states, steps, j, h) && RowsOf(states[k].db.jobs[j].chunks, steps[h].uploads)
  {
    var g := k - 1;
    if j in states[g].db.jobs && states[g].db.jobs[j].chunks != [] {
      h := RowsFromUpload(cfg, states, steps, g, j);
      var c := RunJobChange(cfg, states, steps, g, j);
      RowsKept(states[g].db.jobs[j], states[k].db.jobs[j], c, steps[h].uploads);
    } else {
      h := g;
      if j !in states[g].db.jobs {
        NewJobIsEmpty(cfg, states, steps, g, j);
      }
      FirstRows(cfg, states, steps, g, j);
    }
  }

  // ---------------------------------------------------------------- the transcript of a recording

  /** The uploads carry the time maps of the chunks. */
  ghost predicate Uploads(chunks: seq<ChunkTheorems.VadChunk>, uploads: seq<Upload>) {
    |uploads| == |chunks| && forall c {:trigger uploads[c]} :: 0 <= c < |chunks| ==>
      uploads[c].mappings == chunks[c].mappings
  }

  /** The provider's times are in order within each chunk. */
  ghost predicate ProviderOrdered(job: Job) {
    forall i {:trigger job.chunks[i]} :: 0 <= i < |job.chunks| ==>
      MergerTheorems.TimesOrdered(Merger.ValueOr(job.chunks[i].segments, []))
  }

  /** The merged segments before the final sort. */
  function Loop(cfg: Config, job: Job): seq<Merger.MergedSegment> {
    Merger.Collapse(Merger.Candidates(Results(job.chunks)), cfg.normalize, cfg.slack)
  }

  lemma RecordingInOrder(cfg: Config, job: Job, uploads: seq<Upload>, audio: seq<int>, size: nat,
                         detector: nat -> bool, p: Vad.Params, limit: nat, gap: nat,
                         chunks: seq<ChunkTheorems.VadChunk>, frames: seq<Vad.Frame>, spans: seq<Vad.Span>,
                         segments: seq<seq<Vad.Frame>>)
    requires p.padding > 0
    requires ChunkTheorems.IsSplit(audio, size, detector, p, limit, gap, chunks, frames, spans, segments)
    requires Uploads(chunks, uploads) && RowsOf(job.chunks, uploads) && ProviderOrdered(job)
    ensures MergerTheorems.StartsOrdered(Loop(cfg, job))
    ensures MergerTheorems.NoAdjacentDuplicates(Loop(cfg, job), cfg.normalize, cfg.slack)
  {
    var groups := Grouping.Greedy(Chunks.Pieces(segments, limit), Chunks.SegmentLength, gap, limit);
    var results := Results(job.chunks);
    forall c | 0 <= c < |results| ensures MergerTheorems.Transcribed(groups, gap, results, c) {
      assert job.chunks[c].mappings == uploads[c].mappings == chunks[c].mappings;
      assert ChunkTheorems.IsVadChunk(audio, groups[c], gap, c, chunks[c]);
    }
    MergerTheorems.RecordingMergesInOrder(audio, segments, limit, gap, groups, results, cfg.normalize, cfg.slack);
  }

  /** The stored transcript of a recording whose chunks were uploaded as they were cut, by whichever attempt,
      transcribed with times in order within each chunk: the loop's list is in order of time and without adjacent
      duplicates, and the stored transcript is that very list exactly when segments that start together end in order.
      It has no adjacent duplicates exactly when another segment lies between any two duplicates of the list. */
  lemma RecordingTranscript(cfg: Config, states: seq<State>, steps: seq<Step>, k: nat, j: JobId, audio: seq<int>,
                            size: nat, detector: nat -> bool, p: Vad.Params, limit: nat, gap: nat,
                            chunks: seq<ChunkTheorems.VadChunk>, frames: seq<Vad.Frame>, spans: seq<Vad.Span>,
                            segments: seq<seq<Vad.Frame>>)
    requires IsRun(cfg, states, steps) && k <= |steps|
    requires j in states[k].db.jobs && states[k].db.jobs[j].merged.Some? && ProviderOrdered(states[k].db.jobs[j])
    requires p.padding > 0
    requires ChunkTheorems.IsSplit(audio, size, detector, p, limit, gap, chunks, frames, spans, segments)
    requires forall h {:trigger SplitAt(states, steps, j, h)} :: 0 <= h && SplitAt(states, steps, j, h) ==>
               Uploads(chunks, steps[h].uploads)
    ensures var job := states[k].db.jobs[j];
            var loop := Loop(cfg, job);
            && MergerTheorems.StartsOrdered(loop)
            && MergerTheorems.NoAdjacentDuplicates(loop, cfg.normalize, cfg.slack)
            && job.merged.value == Sorting.StableSort(loop, Merger.ByTime)
            && (job.merged.value == loop <==> MergerTheorems.TiesOrdered(loop))
            && (MergerTheorems.NoAdjacentDuplicates(job.merged.value, cfg.normalize, cfg.slack)
                <==> MergerTheorems.DuplicatesSeparated(loop, cfg.normalize, cfg.slack))
  {
    RunJobInv(cfg, states, steps, k, j);
    var job := states[k].db.jobs[j];
    var h := RowsFromUpload(cfg, states, steps, k, j);
    RecordingInOrder(cfg, job, steps[h].uploads, audio, size, detector, p, limit, gap, chunks, frames, spans, segments);
    MergerTheorems.SortKeepsOrdered(Loop(cfg, job));
    MergerTheorems.SortedApartExactly(Loop(cfg, job), cfg.normalize, cfg.slack);
  }
}
