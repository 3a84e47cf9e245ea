/**
 Splitting, packing and writing of chunks (app/stt/vad.py). Lengths, limits and gaps are sample counts: every supported
 sample rate is a multiple of 1000, so a gap in milliseconds is a whole number of samples.
 */
module Chunks {
  import opened Vad
  import opened Grouping

  function FrameLength(f: Frame): nat {
    |f.data|
  }

  function SegmentLength(segment: seq<Frame>): nat {
    Sum(segment, FrameLength)
  }

  /** `split_segment` is greedy grouping of frames without gaps. */
  method SplitSegment(segment: seq<Frame>, limit: nat) returns (pieces: seq<seq<Frame>>)
    ensures pieces == Greedy(segment, FrameLength, 0, limit)
  {
    var current: seq<Frame> := [];
    var currentDuration := 0;
    pieces := [];
    for i := 0 to |segment|
      invariant pieces + GreedyFrom(current, segment[i..], FrameLength, 0, limit)
             == Greedy(segment, FrameLength, 0, limit)
      invariant currentDuration == Cost(current, FrameLength, 0)
    {
      var frame := segment[i];
      CostAppend(current, frame, FrameLength, 0);
      CostAppend([], frame, FrameLength, 0);
      assert [] + [frame] == [frame];
      if current != [] && currentDuration + |frame.data| > limit {
        pieces := pieces + [current];
        current := [];
        currentDuration := 0;
      }
      current := current + [frame];
      currentDuration := currentDuration + |frame.data|;
    }
    if current != [] {
      pieces := pieces + [current];
    }
  }

  /** All pieces of all segments, in order. */
  function Pieces(segments: seq<seq<Frame>>, limit: nat): seq<seq<Frame>> {
    if segments == [] then []
    else Greedy(segments[0], FrameLength, 0, limit) + Pieces(segments[1..], limit)
  }

  /** `iter_packed_segments` is greedy grouping of all pieces with gaps. */
  method IterPackedSegments(segments: seq<seq<Frame>>, limit: nat, gap: nat) returns (groups: seq<seq<seq<Frame>>>)
    ensures groups == Greedy(Pieces(segments, limit), SegmentLength, gap, limit)
  {
    var current: seq<seq<Frame>> := [];
    var currentDuration := 0;
    groups := [];
    for i := 0 to |segments|
      invariant groups + GreedyFrom(current, Pieces(segments[i..], limit), SegmentLength, gap, limit)
             == Greedy(Pieces(segments, limit), SegmentLength, gap, limit)
      invariant currentDuration == Cost(current, SegmentLength, gap)
    {
      var pieces := SplitSegment(segments[i], limit);
      ghost var later := Pieces(segments[i + 1..], limit);
      assert Pieces(segments[i..], limit) == pieces + later;
      for n := 0 to |pieces|
        invariant groups + GreedyFrom(current, pieces[n..] + later, SegmentLength, gap, limit)
               == Greedy(Pieces(segments, limit), SegmentLength, gap, limit)
        invariant currentDuration == Cost(current, SegmentLength, gap)
      {
        var segment := pieces[n];
        assert pieces[n..] + later == [segment] + (pieces[n + 1..] + later);
        CostAppend(current, segment, SegmentLength, gap);
        CostAppend([], segment, SegmentLength, gap);
        assert [] + [segment] == [segment];
        var addedDuration := SegmentLength(segment) + if current != [] then gap else 0;
        if current != [] && currentDuration + addedDuration > limit {
          groups := groups + [current];
          current := [];
          currentDuration := 0;
          addedDuration := SegmentLength(segment);
        }
        current := current + [segment];
        currentDuration := currentDuration + addedDuration;
      }
      assert pieces[|pieces|..] + later == later;
    }
    if current != [] {
      groups := groups + [current];
    }
  }

  // ---------------------------------------------------------------- writing

  /** One line of the piecewise map from chunk time to source time. */
  datatype Mapping = Mapping(chunkStart: real, chunkEnd: real, sourceStart: real, sourceEnd: real)

  function Data(segment: seq<Frame>): seq<int> {
    if segment == [] then [] else Data(segment[..|segment| - 1]) + segment[|segment| - 1].data
  }

  function Zeros(n: nat): seq<int> {
    seq(n, _ => 0)
  }

  /** The samples of a chunk: its segments, with silence between them. */
  function Written(segments: seq<seq<Frame>>, gap: nat): seq<int> {
    if segments == [] then []
    else
      var last := |segments| - 1;
      Written(segments[..last], gap) + (if last > 0 then Zeros(gap) else []) + Data(segments[last])
  }

  /** Where segment `k` begins in the chunk. */
  function ChunkStart(segments: seq<seq<Frame>>, gap: nat, k: nat): nat
    requires k < |segments|
  {
    |Written(segments[..k], gap)| + if k > 0 then gap else 0
  }

  function MappingOf(segments: seq<seq<Frame>>, gap: nat, k: nat): Mapping
    requires k < |segments| && segments[k] != []
  {
    var segment := segments[k];
    var start := ChunkStart(segments, gap, k);
    Mapping(start as real, (start + |Data(segment)|) as real,
            segment[0].start as real, End(segment[|segment| - 1]) as real)
  }

  ghost predicate MapsAt(segments: seq<seq<Frame>>, gap: nat, m: seq<Mapping>, k: nat)
    requires k < |segments| && k < |m|
  {
    segments[k] != [] && m[k] == MappingOf(segments, gap, k)
  }

  /** One line of the time map per segment, at its place. */
  ghost predicate MapsGroup(segments: seq<seq<Frame>>, gap: nat, m: seq<Mapping>) {
    && |m| == |segments|
    && forall k {:trigger MapsAt(segments, gap, m, k)} :: 0 <= k < |segments| ==> MapsAt(segments, gap, m, k)
  }

  lemma {:induction false} DataLength(segment: seq<Frame>)
    ensures |Data(segment)| == SegmentLength(segment)
  {
    if segment != [] {
      var last := |segment| - 1;
      DataLength(segment[..last]);
      SumAppend(segment[..last], [segment[last]], FrameLength);
      SumOne(segment[last], FrameLength);
      assert segment == segment[..last] + [segment[last]];
    }
  }

  lemma WrittenStep(segments: seq<seq<Frame>>, gap: nat, k: nat)
    requires k < |segments|
    ensures Written(segments[..k + 1], gap)
         == Written(segments[..k], gap) + (if k > 0 then Zeros(gap) else []) + Data(segments[k])
    ensures |Written(segments[..k + 1], gap)| == ChunkStart(segments, gap, k) + |Data(segments[k])|
  {
    assert segments[..k + 1][..k] == segments[..k];
  }

  /** Appending the next segment and its line keeps the map. */
  lemma MapExtended(segments: seq<seq<Frame>>, gap: nat, index: nat, earlier: seq<Mapping>, line: Mapping)
    requires index == |earlier| < |segments| && segments[index] != [] && line == MappingOf(segments, gap, index)
    requires forall k {:trigger MapsAt(segments, gap, earlier, k)} :: 0 <= k < index ==>
               MapsAt(segments, gap, earlier, k)
    ensures forall k {:trigger MapsAt(segments, gap, earlier + [line], k)} :: 0 <= k < index + 1 ==>
              MapsAt(segments, gap, earlier + [line], k)
  {
    forall k | 0 <= k < index + 1 ensures MapsAt(segments, gap, earlier + [line], k) {
      if k < index {
        assert MapsAt(segments, gap, earlier, k);
      }
    }
  }

  /** `write_vad_chunk`. */
  method WriteVadChunk(segments: seq<seq<Frame>>, gap: nat)
    returns (samples: seq<int>, duration: nat, mappings: seq<Mapping>)
    requires forall k :: 0 <= k < |segments| ==> segments[k] != []
    ensures samples == Written(segments, gap)
    ensures duration == |samples|
    ensures MapsGroup(segments, gap, mappings)
  {
    samples, mappings := [], [];
    var chunkCursor := 0;
    for index := 0 to |segments|
      invariant samples == Written(segments[..index], gap)
      invariant chunkCursor == |samples|
      invariant |mappings| == index
      invariant forall k {:trigger MapsAt(segments, gap, mappings, k)} :: 0 <= k < index ==>
                  MapsAt(segments, gap, mappings, k)
    {
      var segment := segments[index];
      if index > 0 {
        samples := samples + Zeros(gap);
        chunkCursor := chunkCursor + gap;
      }
      var segmentStart := chunkCursor;
      ghost var before := samples;
      for f := 0 to |segment|
        invariant samples == before + Data(segment[..f])
      {
        samples := samples + segment[f].data;
        assert segment[..f + 1][..f] == segment[..f];
      }
      assert segment[..|segment|] == segment;
      DataLength(segment);
      chunkCursor := chunkCursor + SegmentLength(segment);
      WrittenStep(segments, gap, index);
      var line := Mapping(segmentStart as real, chunkCursor as real, segment[0].start as real,
                          End(segment[|segment| - 1]) as real);
      MapExtended(segments, gap, index, mappings, line);
      mappings := mappings + [line];
    }
    assert segments[..|segments|] == segments;
    duration := chunkCursor;
  }
}
