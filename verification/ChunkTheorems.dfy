/**
 From audio to chunks and back (app/stt/vad.py:225-265): the chunks hold every frame of every speech segment once and in
 order, respect the limit, are as few as possible, and each written sample is the source sample its time maps to.
 */
module ChunkTheorems {
  import opened Vad
  import opened Grouping
  import opened Chunks
  import opened TimeMap

  /** A run of consecutive source frames. */
  ghost predicate IsSegment(audio: seq<int>, segment: seq<Frame>) {
    segment != [] && Contiguous(segment) && forall i :: 0 <= i < |segment| ==> InSource(audio, segment[i])
  }

  function First(segment: seq<Frame>): nat
    requires segment != []
  {
    segment[0].start
  }

  function Last(segment: seq<Frame>): nat
    requires segment != []
  {
    End(segment[|segment| - 1])
  }

  /** Segments in source order. */
  ghost predicate InOrder(audio: seq<int>, segments: seq<seq<Frame>>) {
    && (forall k {:trigger IsSegment(audio, segments[k])} :: 0 <= k < |segments| ==> IsSegment(audio, segments[k]))
    && (forall k {:trigger Follows(segments, k)} :: 0 < k < |segments| ==> Follows(segments, k))
  }

  ghost predicate Follows(segments: seq<seq<Frame>>, k: nat)
    requires 0 < k < |segments|
  {
    segments[k - 1] != [] && segments[k] != [] && Last(segments[k - 1]) <= First(segments[k])
  }

  /** The data of a segment is one stretch of the source. */
  lemma {:induction false} SegmentData(audio: seq<int>, segment: seq<Frame>)
    requires IsSegment(audio, segment)
    ensures First(segment) < Last(segment) <= |audio|
    ensures Data(segment) == audio[First(segment)..Last(segment)]
  {
    var last := |segment| - 1;
    assert InSource(audio, segment[last]);
    if last == 0 {
      assert segment[..0] == [];
    } else {
      var init := segment[..last];
      SegmentData(audio, init);
      assert First(init) == First(segment) && Last(init) == End(segment[last - 1]) == segment[last].start;
      assert audio[First(segment)..Last(segment)]
          == audio[First(segment)..Last(init)] + audio[Last(init)..Last(segment)];
    }
  }

  // ---------------------------------------------------------------- the written chunk

  /** Segment `k` of the chunk holds exactly that segment's data. */
  lemma {:induction false} WrittenPrefix(segments: seq<seq<Frame>>, gap: nat, k: nat, n: nat)
    requires k <= n <= |segments|
    ensures |Written(segments[..k], gap)| <= |Written(segments[..n], gap)|
    ensures Written(segments[..n], gap)[..|Written(segments[..k], gap)|] == Written(segments[..k], gap)
    decreases n - k
  {
    if k < n {
      WrittenPrefix(segments, gap, k, n - 1);
      WrittenStep(segments, gap, n - 1);
    }
  }

  lemma SegmentSamples(segments: seq<seq<Frame>>, gap: nat, k: nat)
    requires k < |segments|
    ensures var start := ChunkStart(segments, gap, k);
            && start + |Data(segments[k])| <= |Written(segments, gap)|
            && Written(segments, gap)[start..start + |Data(segments[k])|] == Data(segments[k])
  {
    WrittenStep(segments, gap, k);
    WrittenPrefix(segments, gap, k + 1, |segments|);
    assert segments[..|segments|] == segments;
    var start := ChunkStart(segments, gap, k);
    var upTo := Written(segments[..k + 1], gap);
    assert upTo[start..] == Data(segments[k]);
    assert Written(segments, gap)[start..|upTo|] == Written(segments, gap)[..|upTo|][start..];
  }

  lemma SegmentDataAt(audio: seq<int>, segments: seq<seq<Frame>>, k: nat)
    requires InOrder(audio, segments) && k < |segments|
    ensures segments[k] != [] && First(segments[k]) < Last(segments[k]) <= |audio|
    ensures Data(segments[k]) == audio[First(segments[k])..Last(segments[k])]
  {
    assert IsSegment(audio, segments[k]);
    SegmentData(audio, segments[k]);
  }

  /** The writer's mappings satisfy what the time map relies on. */
  lemma WriterMappings(audio: seq<int>, segments: seq<seq<Frame>>, gap: nat, m: seq<Mapping>)
    requires InOrder(audio, segments) && segments != [] && MapsGroup(segments, gap, m)
    ensures WellFormed(m, gap as real)
  {
    var g := gap as real;
    forall k | 0 <= k < |m| ensures Links(m, g, k) {
      SegmentDataAt(audio, segments, k);
      assert MapsAt(segments, gap, m, k);
      if k > 0 {
        var h := k - 1;
        assert Follows(segments, k) && MapsAt(segments, gap, m, h);
        WrittenStep(segments, gap, h);
      }
    }
  }

  /** A chunk as the writer returns it for a group of segments. */
  ghost predicate IsChunk(audio: seq<int>, segments: seq<seq<Frame>>, gap: nat, samples: seq<int>, m: seq<Mapping>) {
    && segments != [] && InOrder(audio, segments)
    && samples == Written(segments, gap) && MapsGroup(segments, gap, m)
  }

  lemma SampleValue(audio: seq<int>, segments: seq<seq<Frame>>, gap: nat, k: nat, p: nat)
    requires InOrder(audio, segments) && k < |segments| && segments[k] != []
    requires ChunkStart(segments, gap, k) <= p < ChunkStart(segments, gap, k) + |Data(segments[k])|
    ensures p < |Written(segments, gap)|
    ensures var source := First(segments[k]) + (p - ChunkStart(segments, gap, k));
            source < |audio| && Written(segments, gap)[p] == audio[source]
  {
    SegmentDataAt(audio, segments, k);
    SegmentSamples(segments, gap, k);
    SameStretch(Written(segments, gap), ChunkStart(segments, gap, k), audio, First(segments[k]), Data(segments[k]), p);
  }

  lemma SameStretch(s: seq<int>, a: nat, t: seq<int>, b: nat, stretch: seq<int>, p: nat)
    requires a + |stretch| <= |s| && s[a..a + |stretch|] == stretch
    requires b + |stretch| <= |t| && t[b..b + |stretch|] == stretch
    requires a <= p < a + |stretch|
    ensures s[p] == t[b + (p - a)]
  {
    assert s[p] == s[a..a + |stretch|][p - a];
    assert t[b + (p - a)] == t[b..b + |stretch|][p - a];
  }

  lemma SampleTime(segments: seq<seq<Frame>>, gap: nat, m: seq<Mapping>, k: nat, p: nat)
    requires MapsGroup(segments, gap, m) && k < |segments| && WellFormed(m, gap as real)
    requires segments[k] != [] && (k > 0 ==> segments[k - 1] != [])
    requires ChunkStart(segments, gap, k) <= p < ChunkStart(segments, gap, k) + |Data(segments[k])|
    ensures var source := First(segments[k]) + (p - ChunkStart(segments, gap, k));
            MapChunkTime(p as real, m) == source as real
            <==> k == 0 || gap > 0 || p > ChunkStart(segments, gap, k) || Last(segments[k - 1]) == First(segments[k])
  {
    assert MapsAt(segments, gap, m, k);
    if k > 0 {
      var h := k - 1;
      assert MapsAt(segments, gap, m, h);
    }
    SegmentTimesInvert(p as real, m, gap as real, k);
  }

  /** Round trip of the writer and the time map: sample `p` of segment `k` in the chunk is the source sample at the time
      its own position maps to. Without gaps a segment's opening sample is the one exception, and only in its time, and
      only when source audio was dropped before it. */
  lemma SampleComesFromMappedTime(audio: seq<int>, segments: seq<seq<Frame>>, gap: nat, samples: seq<int>,
                                  m: seq<Mapping>, k: nat, p: nat)
    requires IsChunk(audio, segments, gap, samples, m) && k < |segments|
    requires ChunkStart(segments, gap, k) <= p < ChunkStart(segments, gap, k) + |Data(segments[k])|
    ensures p < |samples| && segments[k] != [] && (k > 0 ==> segments[k - 1] != [])
    ensures var source := First(segments[k]) + (p - ChunkStart(segments, gap, k));
            && source < |audio| && samples[p] == audio[source]
            && (MapChunkTime(p as real, m) == source as real
                <==> || k == 0 || gap > 0 || p > ChunkStart(segments, gap, k)
                     || Last(segments[k - 1]) == First(segments[k]))
  {
    WriterMappings(audio, segments, gap, m);
    SegmentDataAt(audio, segments, k);
    if k > 0 {
      SegmentDataAt(audio, segments, k - 1);
    }
    SampleValue(audio, segments, gap, k, p);
    SampleTime(segments, gap, m, k, p);
  }

  /** Silence is all there is between two segments of a chunk. */
  lemma GapIsSilent(segments: seq<seq<Frame>>, gap: nat, k: nat, p: nat)
    requires 0 < k < |segments| && ChunkStart(segments, gap, k) - gap <= p < ChunkStart(segments, gap, k)
    ensures ChunkStart(segments, gap, k) == ChunkStart(segments, gap, k - 1) + |Data(segments[k - 1])| + gap
    ensures p < |Written(segments, gap)| && Written(segments, gap)[p] == 0
  {
    WrittenStep(segments, gap, k - 1);
    WrittenStep(segments, gap, k);
    WrittenPrefix(segments, gap, k + 1, |segments|);
    assert segments[..|segments|] == segments;
    var before, upTo := Written(segments[..k], gap), Written(segments[..k + 1], gap);
    assert upTo == before + Zeros(gap) + Data(segments[k]);
    assert upTo[p] == Zeros(gap)[p - |before|];
    assert Written(segments, gap)[p] == Written(segments, gap)[..|upTo|][p];
  }

  /** Sample `p` is there, and silent. */
  predicate IsSilent(samples: seq<int>, p: nat) {
    p < |samples| && samples[p] == 0
  }

  /** What a chunk holds besides its segments: the first begins with the chunk, the last ends with it, and between two
      of them there are `gap` samples of silence. */
  lemma SilenceBetween(audio: seq<int>, segments: seq<seq<Frame>>, gap: nat, samples: seq<int>, m: seq<Mapping>,
                       k: nat)
    requires IsChunk(audio, segments, gap, samples, m) && k < |segments|
    ensures k == 0 ==> m[k].chunkStart == 0.0
    ensures k == |segments| - 1 ==> m[k].chunkEnd == |samples| as real
    ensures k > 0 ==>
              && m[k].chunkStart == m[k - 1].chunkEnd + gap as real
              && forall p: nat {:trigger IsSilent(samples, p)} ::
                   m[k - 1].chunkEnd <= p as real < m[k].chunkStart ==> IsSilent(samples, p)
  {
    assert MapsAt(segments, gap, m, k);
    WrittenStep(segments, gap, k);
    assert segments[..|segments|] == segments;
    if k > 0 {
      assert MapsAt(segments, gap, m, k - 1);
      WrittenStep(segments, gap, k - 1);
      forall p: nat | m[k - 1].chunkEnd <= p as real < m[k].chunkStart ensures IsSilent(samples, p) {
        SilentAt(segments, gap, samples, m, k, p);
      }
    }
  }

  lemma SilentAt(segments: seq<seq<Frame>>, gap: nat, samples: seq<int>, m: seq<Mapping>, k: nat, p: nat)
    requires samples == Written(segments, gap) && MapsGroup(segments, gap, m) && 0 < k < |segments|
    requires m[k - 1].chunkEnd <= p as real < m[k].chunkStart
    ensures IsSilent(samples, p)
  {
    assert MapsAt(segments, gap, m, k) && MapsAt(segments, gap, m, k - 1);
    WrittenStep(segments, gap, k - 1);
    GapIsSilent(segments, gap, k, p);
  }

  // ---------------------------------------------------------------- conservation and the limit

  /** Splitting keeps every frame of every segment, in order. */
  lemma {:induction false} PiecesKeepFrames(segments: seq<seq<Frame>>, limit: nat)
    ensures Flatten(Pieces(segments, limit)) == Flatten(segments)
  {
    if segments != [] {
      PiecesKeepFrames(segments[1..], limit);
      var head := Greedy(segments[0], FrameLength, 0, limit);
      GreedyKeepsItems([], segments[0], FrameLength, 0, limit);
      assert [] + segments[0] == segments[0];
      FlattenAppend(head, Pieces(segments[1..], limit));
    }
  }

  /** Every piece is a single frame or fits the limit. */
  lemma {:induction false} PiecesFit(segments: seq<seq<Frame>>, limit: nat)
    ensures AllAdmissible(Pieces(segments, limit), FrameLength, 0, limit)
  {
    if segments != [] {
      PiecesFit(segments[1..], limit);
      GreedyAdmissible([], segments[0], FrameLength, 0, limit);
    }
  }

  lemma PieceFits(piece: seq<Frame>, limit: nat)
    requires Admissible(piece, FrameLength, 0, limit)
    requires forall i :: 0 <= i < |piece| ==> |piece[i].data| <= limit
    ensures SegmentLength(piece) <= limit
  {
    if |piece| == 1 {
      SumOne(piece[0], FrameLength);
      assert piece == [piece[0]];
    }
  }

  lemma {:induction false} WrittenLength(segments: seq<seq<Frame>>, gap: nat)
    ensures |Written(segments, gap)| == Cost(segments, SegmentLength, gap)
  {
    if segments != [] {
      var last := |segments| - 1;
      WrittenLength(segments[..last], gap);
      DataLength(segments[last]);
      CostAppend(segments[..last], segments[last], SegmentLength, gap);
      assert segments == segments[..last] + [segments[last]];
    }
  }

  /** All chunks together hold the frames of the input segments, once each and in order. */
  lemma ChunksConserveFrames(segments: seq<seq<Frame>>, limit: nat, gap: nat, chunks: seq<seq<seq<Frame>>>)
    requires chunks == Greedy(Pieces(segments, limit), SegmentLength, gap, limit)
    ensures Flatten(Flatten(chunks)) == Flatten(segments)
  {
    GreedyKeepsItems([], Pieces(segments, limit), SegmentLength, gap, limit);
    assert [] + Pieces(segments, limit) == Pieces(segments, limit);
    PiecesKeepFrames(segments, limit);
  }

  /** When every frame fits the limit, so does every written chunk, silences included. */
  lemma ChunksRespectLimit(segments: seq<seq<Frame>>, limit: nat, gap: nat, chunks: seq<seq<seq<Frame>>>, c: nat)
    requires chunks == Greedy(Pieces(segments, limit), SegmentLength, gap, limit) && c < |chunks|
    requires forall f :: f in Flatten(segments) ==> |f.data| <= limit
    ensures |Written(chunks[c], gap)| <= limit
  {
    var pieces := Pieces(segments, limit);
    GreedyStretch(pieces, SegmentLength, gap, limit, c);
    WrittenLength(chunks[c], gap);
    if |chunks[c]| == 1 {
      var piece := chunks[c][0];
      SumOne(piece, SegmentLength);
      assert chunks[c] == [piece];
      assert piece == pieces[Taken(chunks, c)];
      PieceRespectsLimit(segments, limit, Taken(chunks, c));
    }
  }

  lemma PieceRespectsLimit(segments: seq<seq<Frame>>, limit: nat, n: nat)
    requires n < |Pieces(segments, limit)|
    requires forall f :: f in Flatten(segments) ==> |f.data| <= limit
    ensures SegmentLength(Pieces(segments, limit)[n]) <= limit
  {
    var pieces := Pieces(segments, limit);
    PiecesFit(segments, limit);
    assert Admissible(pieces[n], FrameLength, 0, limit);
    PiecesKeepFrames(segments, limit);
    GroupIsStretch(pieces, n);
    assert forall i :: 0 <= i < |pieces[n]| ==> pieces[n][i] in Flatten(pieces);
    PieceFits(pieces[n], limit);
  }

  /** The pieces of one segment: its frames in order, each piece within the limit unless it is a single frame, and none
      that could take a frame more. */
  ghost predicate IsDivision(segment: seq<Frame>, limit: nat, pieces: seq<seq<Frame>>) {
    && Flatten(pieces) == segment
    && (forall n {:trigger pieces[n]} :: 0 <= n < |pieces| ==>
          |pieces[n]| == 1 || (|pieces[n]| > 1 && |Data(pieces[n])| <= limit))
    && (forall n {:trigger TakesNoMore(pieces, limit, n)} :: 0 <= n < |pieces| - 1 ==> TakesNoMore(pieces, limit, n))
  }

  ghost predicate TakesNoMore(pieces: seq<seq<Frame>>, limit: nat, n: nat)
    requires n + 1 < |pieces|
  {
    pieces[n + 1] != [] && |Data(pieces[n])| + |pieces[n + 1][0].data| > limit
  }

  lemma DataCost(group: seq<Frame>)
    ensures |Data(group)| == Cost(group, FrameLength, 0)
  {
    DataLength(group);
  }

  lemma GreedyDivides(segment: seq<Frame>, limit: nat)
    ensures IsDivision(segment, limit, Greedy(segment, FrameLength, 0, limit))
  {
    var pieces := Greedy(segment, FrameLength, 0, limit);
    GreedyKeepsItems([], segment, FrameLength, 0, limit);
    GreedyAdmissible([], segment, FrameLength, 0, limit);
    GreedyMaximal([], segment, FrameLength, 0, limit);
    assert [] + segment == segment;
    forall n | 0 <= n < |pieces| ensures |pieces[n]| == 1 || (|pieces[n]| > 1 && |Data(pieces[n])| <= limit) {
      assert Admissible(pieces[n], FrameLength, 0, limit);
      DataCost(pieces[n]);
    }
    forall n | 0 <= n < |pieces| - 1 ensures TakesNoMore(pieces, limit, n) {
      assert FullAt(pieces, FrameLength, 0, limit, n);
      DataCost(pieces[n]);
      CostAppend(pieces[n], pieces[n + 1][0], FrameLength, 0);
    }
  }

  /** Each segment is divided on its own, and no more than the limit asks for. */
  lemma {:induction false} PiecesExactly(segments: seq<seq<Frame>>, limit: nat)
    returns (divisions: seq<seq<seq<Frame>>>)
    ensures Pieces(segments, limit) == Flatten(divisions) && |divisions| == |segments|
    ensures forall k {:trigger divisions[k]} :: 0 <= k < |segments| ==> IsDivision(segments[k], limit, divisions[k])
  {
    if segments == [] {
      divisions := [];
    } else {
      var rest := PiecesExactly(segments[1..], limit);
      var first := Greedy(segments[0], FrameLength, 0, limit);
      GreedyDivides(segments[0], limit);
      divisions := [first] + rest;
      assert divisions[1..] == rest;
    }
  }

  /** A segment within the limit stays in one piece. */
  lemma WholeSegmentStays(segment: seq<Frame>, limit: nat, pieces: seq<seq<Frame>>)
    requires IsDivision(segment, limit, pieces) && segment != [] && |Data(segment)| <= limit
    ensures pieces == [segment]
  {
    if |pieces| > 1 {
      assert TakesNoMore(pieces, limit, 0);
      FirstTwoFit(segment, pieces);
    } else {
      assert pieces != [];
      FlattenOne(pieces[0]);
      assert pieces == [pieces[0]];
    }
  }

  lemma FirstTwoFit(segment: seq<Frame>, pieces: seq<seq<Frame>>)
    requires Flatten(pieces) == segment && |pieces| > 1 && pieces[1] != []
    ensures |Data(pieces[0])| + |pieces[1][0].data| <= |Data(segment)|
  {
    var next := pieces[1][0];
    var longer := pieces[0] + [next];
    FlattenTwo(pieces);
    var rest := segment[|longer|..];
    assert [] + longer + rest == segment;
    DataCost(segment);
    DataCost(pieces[0]);
    CostAppend(pieces[0], next, FrameLength, 0);
    CostOfPart([], longer, rest, FrameLength, 0);
  }

  lemma FlattenTwo(pieces: seq<seq<Frame>>)
    requires |pieces| > 1 && pieces[1] != []
    ensures pieces[0] + [pieces[1][0]] <= Flatten(pieces)
  {
    assert Flatten(pieces) == pieces[0] + (pieces[1] + Flatten(pieces[1..][1..]));
    assert pieces[1] == [pieces[1][0]] + pieces[1][1..];
  }

  /** No other way to put the same pieces, in order, into chunks within the limit needs fewer chunks. */
  lemma PackingIsOptimal(segments: seq<seq<Frame>>, limit: nat, gap: nat, other: seq<seq<seq<Frame>>>)
    requires Flatten(other) == Pieces(segments, limit)
    requires forall k :: 0 <= k < |other| ==> other[k] != [] && |Written(other[k], gap)| <= limit
    ensures |Greedy(Pieces(segments, limit), SegmentLength, gap, limit)| <= |other|
  {
    forall k | 0 <= k < |other| ensures Admissible(other[k], SegmentLength, gap, limit) {
      WrittenLength(other[k], gap);
    }
    GreedyIsFewest(Pieces(segments, limit), other, SegmentLength, gap, limit);
  }

  // ---------------------------------------------------------------- pieces stay in source order

  lemma SliceIsSegment(audio: seq<int>, segment: seq<Frame>, a: nat, b: nat)
    requires IsSegment(audio, segment) && a < b <= |segment|
    ensures IsSegment(audio, segment[a..b])
    ensures First(segment[a..b]) == segment[a].start && Last(segment[a..b]) == End(segment[b - 1])
  {
  }

  lemma PieceOfSegment(audio: seq<int>, segment: seq<Frame>, limit: nat, k: nat)
    requires IsSegment(audio, segment) && k < |Greedy(segment, FrameLength, 0, limit)|
    ensures var pieces := Greedy(segment, FrameLength, 0, limit);
            && Taken(pieces, k) < Taken(pieces, k + 1) <= |segment|
            && IsSegment(audio, pieces[k]) && First(pieces[k]) == segment[Taken(pieces, k)].start
            && Last(pieces[k]) == End(segment[Taken(pieces, k + 1) - 1])
            && (k == 0 ==> First(pieces[k]) == First(segment))
            && (k == |pieces| - 1 ==> Last(pieces[k]) == Last(segment))
  {
    var pieces := Greedy(segment, FrameLength, 0, limit);
    GreedyStretch(segment, FrameLength, 0, limit, k);
    SliceIsSegment(audio, segment, Taken(pieces, k), Taken(pieces, k + 1));
  }

  lemma AdjacentPieces(audio: seq<int>, segment: seq<Frame>, limit: nat, k: nat)
    requires IsSegment(audio, segment) && 0 < k < |Greedy(segment, FrameLength, 0, limit)|
    ensures Follows(Greedy(segment, FrameLength, 0, limit), k)
  {
    PieceOfSegment(audio, segment, limit, k - 1);
    PieceOfSegment(audio, segment, limit, k);
  }

  lemma SplitPiecesInOrder(audio: seq<int>, segment: seq<Frame>, limit: nat)
    requires IsSegment(audio, segment)
    ensures InOrder(audio, Greedy(segment, FrameLength, 0, limit))
  {
    var pieces := Greedy(segment, FrameLength, 0, limit);
    forall k | 0 <= k < |pieces| ensures IsSegment(audio, pieces[k]) {
      PieceOfSegment(audio, segment, limit, k);
    }
    forall k | 0 < k < |pieces| ensures Follows(pieces, k) {
      AdjacentPieces(audio, segment, limit, k);
    }
  }

  /** The pieces of one segment are segments that follow each other without a hole and span it. */
  lemma SplitInOrder(audio: seq<int>, segment: seq<Frame>, limit: nat)
    requires IsSegment(audio, segment)
    ensures var pieces := Greedy(segment, FrameLength, 0, limit);
            && pieces != [] && InOrder(audio, pieces)
            && pieces[0] != [] && First(pieces[0]) == First(segment)
            && pieces[|pieces| - 1] != [] && Last(pieces[|pieces| - 1]) == Last(segment)
  {
    GreedyNotEmpty(segment, FrameLength, 0, limit);
    SplitPiecesInOrder(audio, segment, limit);
    PieceOfSegment(audio, segment, limit, 0);
    PieceOfSegment(audio, segment, limit, |Greedy(segment, FrameLength, 0, limit)| - 1);
  }

  lemma ConcatInOrder(audio: seq<int>, a: seq<seq<Frame>>, b: seq<seq<Frame>>)
    requires InOrder(audio, a) && InOrder(audio, b) && a != []
    requires a[|a| - 1] != [] && (b != [] ==> b[0] != [] && Last(a[|a| - 1]) <= First(b[0]))
    ensures InOrder(audio, a + b)
  {
    var all := a + b;
    forall k | 0 <= k < |all| ensures IsSegment(audio, all[k]) {
      if k < |a| {
        assert IsSegment(audio, a[k]);
      } else {
        assert IsSegment(audio, b[k - |a|]);
      }
    }
    forall k | 0 < k < |all| ensures Follows(all, k) {
      if k < |a| {
        assert Follows(a, k);
      } else if k > |a| {
        assert Follows(b, k - |a|);
      }
    }
  }

  lemma {:induction false} PiecesInOrder(audio: seq<int>, segments: seq<seq<Frame>>, limit: nat)
    requires InOrder(audio, segments)
    ensures var pieces := Pieces(segments, limit);
            && InOrder(audio, pieces)
            && (segments != [] ==>
                  pieces != [] && pieces[0] != [] && segments[0] != [] && First(pieces[0]) == First(segments[0]))
  {
    if segments != [] {
      var rest := segments[1..];
      TailInOrder(audio, segments);
      PiecesInOrder(audio, rest, limit);
      assert IsSegment(audio, segments[0]);
      SplitInOrder(audio, segments[0], limit);
      if rest != [] {
        assert Follows(segments, 1);
      }
      ConcatInOrder(audio, Greedy(segments[0], FrameLength, 0, limit), Pieces(rest, limit));
    }
  }

  lemma TailInOrder(audio: seq<int>, segments: seq<seq<Frame>>)
    requires InOrder(audio, segments) && segments != []
    ensures InOrder(audio, segments[1..])
  {
    SliceInOrder(audio, segments, 1, |segments|);
    assert segments[1..|segments|] == segments[1..];
  }

  lemma SliceInOrder(audio: seq<int>, segments: seq<seq<Frame>>, a: nat, b: nat)
    requires InOrder(audio, segments) && a <= b <= |segments|
    ensures InOrder(audio, segments[a..b])
  {
    var part := segments[a..b];
    forall k | 0 <= k < |part| ensures IsSegment(audio, part[k]) {
      assert IsSegment(audio, segments[a + k]);
    }
    forall k | 0 < k < |part| ensures Follows(part, k) {
      assert Follows(segments, a + k);
    }
  }

  /** Every chunk's segments are in source order, and so are the chunks. */
  lemma ChunkInOrder(audio: seq<int>, segments: seq<seq<Frame>>, limit: nat, gap: nat, chunks: seq<seq<seq<Frame>>>,
                     c: nat)
    requires InOrder(audio, segments)
    requires chunks == Greedy(Pieces(segments, limit), SegmentLength, gap, limit) && c < |chunks|
    ensures chunks[c] != [] && InOrder(audio, chunks[c])
    ensures c > 0 ==>
              && chunks[c - 1] != [] && chunks[c - 1][|chunks[c - 1]| - 1] != [] && chunks[c][0] != []
              && Last(chunks[c - 1][|chunks[c - 1]| - 1]) <= First(chunks[c][0])
  {
    var pieces := Pieces(segments, limit);
    PiecesInOrder(audio, segments, limit);
    GreedyStretch(pieces, SegmentLength, gap, limit, c);
    SliceInOrder(audio, pieces, Taken(chunks, c), Taken(chunks, c + 1));
    if c > 0 {
      GreedyStretch(pieces, SegmentLength, gap, limit, c - 1);
      assert Follows(pieces, Taken(chunks, c));
    }
  }

  // ---------------------------------------------------------------- the whole chunker

  datatype VadChunk = VadChunk(index: nat, samples: seq<int>, duration: nat, mappings: seq<Mapping>)

  ghost predicate IsVadChunk(audio: seq<int>, segments: seq<seq<Frame>>, gap: nat, index: nat, chunk: VadChunk) {
    && chunk.index == index && chunk.duration == |chunk.samples|
    && IsChunk(audio, segments, gap, chunk.samples, chunk.mappings)
  }

  lemma CutInOrder(audio: seq<int>, frames: seq<Frame>, voiced: seq<bool>, p: Params, spans: seq<Span>,
                   segments: seq<seq<Frame>>)
    requires p.padding > 0 && IsSegmentation(voiced, p, spans) && Cut(frames, spans, segments)
    requires Contiguous(frames) && forall i :: 0 <= i < |frames| ==> InSource(audio, frames[i])
    ensures InOrder(audio, segments)
  {
    forall k | 0 <= k < |segments| ensures IsSegment(audio, segments[k]) {
      assert IsCut(frames, spans[k], segments[k]);
    }
    forall k | 0 < k < |segments| ensures Follows(segments, k) {
      assert IsCut(frames, spans[k], segments[k]) && IsCut(frames, spans[k - 1], segments[k - 1]);
      SpansInOrder(voiced, p, spans, k - 1, k);
      FramesInOrder(frames, spans[k - 1].hi - 1, spans[k].lo);
    }
  }

  lemma {:induction false} FramesInOrder(frames: seq<Frame>, a: nat, b: nat)
    requires Contiguous(frames) && a < b < |frames|
    ensures End(frames[a]) <= frames[b].start
    decreases b - a
  {
    assert frames[b].start == End(frames[b - 1]);
    if a < b - 1 {
      FramesInOrder(frames, a, b - 1);
    }
  }

  /** The full frames of the audio, end to end from its first sample. */
  ghost predicate IsFraming(audio: seq<int>, size: nat, frames: seq<Frame>) {
    && Contiguous(frames) && (frames != [] ==> frames[0].start == 0)
    && (forall i :: 0 <= i < |frames| ==> InSource(audio, frames[i]) && |frames[i].data| == size)
    && Position(frames) <= |audio| < Position(frames) + size
  }

  /** The chunks of a recording: its full frames, their one segmentation, the segments cut out, and the groups they are
      packed into, each written as one chunk. */
  ghost predicate IsSplit(audio: seq<int>, size: nat, detector: nat -> bool, p: Params, limit: nat, gap: nat,
                          chunks: seq<VadChunk>, frames: seq<Frame>, spans: seq<Span>, segments: seq<seq<Frame>>)
    requires p.padding > 0
  {
    var groups := Greedy(Pieces(segments, limit), SegmentLength, gap, limit);
    && IsFraming(audio, size, frames)
    && IsSegmentation(seq(|frames|, detector), p, spans) && Cut(frames, spans, segments)
    && InOrder(audio, segments)
    && |chunks| == |groups|
    && (forall c {:trigger chunks[c]} :: 0 <= c < |chunks| ==> IsVadChunk(audio, groups[c], gap, c, chunks[c]))
    && (chunks == [] <==> spans == [])
  }

  lemma FramesAt(audio: seq<int>, size: nat, frames: seq<Frame>, i: nat)
    requires IsFraming(audio, size, frames) && i < |frames|
    ensures (i + 1) * size <= |audio| && frames[i] == Frame(audio[i * size..(i + 1) * size], i * size)
  {
    FrameStart(frames, size, i);
    assert InSource(audio, frames[i]);
    assert (i + 1) * size == i * size + size;
  }

  lemma FramingLength(audio: seq<int>, size: nat, frames: seq<Frame>)
    requires IsFraming(audio, size, frames)
    ensures Position(frames) == |frames| * size
  {
    if frames != [] {
      var last := |frames| - 1;
      FramesAt(audio, size, frames, last);
    }
  }

  lemma NoMoreFrames(audio: seq<int>, size: nat, a: seq<Frame>, b: seq<Frame>)
    requires IsFraming(audio, size, a) && IsFraming(audio, size, b)
    ensures |b| <= |a|
  {
    if |a| < |b| {
      FramesAt(audio, size, b, |a|);
      FramingLength(audio, size, a);
    }
  }

  lemma FramingUnique(audio: seq<int>, size: nat, a: seq<Frame>, b: seq<Frame>)
    requires IsFraming(audio, size, a) && IsFraming(audio, size, b)
    ensures a == b
  {
    NoMoreFrames(audio, size, a, b);
    NoMoreFrames(audio, size, b, a);
    forall i | 0 <= i < |a| ensures a[i] == b[i] {
      FramesAt(audio, size, a, i);
      FramesAt(audio, size, b, i);
    }
  }

  lemma CutUnique(frames: seq<Frame>, spans: seq<Span>, a: seq<seq<Frame>>, b: seq<seq<Frame>>)
    requires Cut(frames, spans, a) && Cut(frames, spans, b)
    ensures a == b
  {
    forall k | 0 <= k < |a| ensures a[k] == b[k] {
      assert IsCut(frames, spans[k], a[k]) && IsCut(frames, spans[k], b[k]);
    }
  }

  lemma MapUnique(segments: seq<seq<Frame>>, gap: nat, a: seq<Mapping>, b: seq<Mapping>)
    requires MapsGroup(segments, gap, a) && MapsGroup(segments, gap, b)
    ensures a == b
  {
    forall k | 0 <= k < |a| ensures a[k] == b[k] {
      assert MapsAt(segments, gap, a, k) && MapsAt(segments, gap, b, k);
    }
  }

  /** The description leaves no freedom: audio and detector determine the chunks, down to the sample. */
  lemma SplitUnique(audio: seq<int>, size: nat, detector: nat -> bool, p: Params, limit: nat, gap: nat,
                    a: seq<VadChunk>, framesA: seq<Frame>, spansA: seq<Span>, segmentsA: seq<seq<Frame>>,
                    b: seq<VadChunk>, framesB: seq<Frame>, spansB: seq<Span>, segmentsB: seq<seq<Frame>>)
    requires p.padding > 0
    requires IsSplit(audio, size, detector, p, limit, gap, a, framesA, spansA, segmentsA)
    requires IsSplit(audio, size, detector, p, limit, gap, b, framesB, spansB, segmentsB)
    ensures a == b
  {
    FramingUnique(audio, size, framesA, framesB);
    SegmentationUnique(seq(|framesA|, detector), p, spansA, spansB);
    CutUnique(framesA, spansA, segmentsA, segmentsB);
    var groups := Greedy(Pieces(segmentsA, limit), SegmentLength, gap, limit);
    forall c | 0 <= c < |groups| ensures a[c] == b[c] {
      assert IsVadChunk(audio, groups[c], gap, c, a[c]) && IsVadChunk(audio, groups[c], gap, c, b[c]);
      MapUnique(groups[c], gap, a[c].mappings, b[c].mappings);
    }
  }

  /** `VadChunker.split`. `detector(i)` is the voice detector's answer for frame `i`. The result is empty, which the
      source reports as an error, exactly when the segmentation is. */
  method Split(audio: seq<int>, size: nat, detector: nat -> bool, p: Params, limit: nat, gap: nat)
    returns (chunks: seq<VadChunk>)
    requires size > 0 && p.padding > 0
    ensures exists frames, spans, segments ::
              IsSplit(audio, size, detector, p, limit, gap, chunks, frames, spans, segments)
  {
    var frames := IterPcmFrames(audio, size);
    var voiced := seq(|frames|, detector);
    var segments := IterSpeechSegments(frames, voiced, p);
    ghost var spans :| IsSegmentation(voiced, p, spans) && Cut(frames, spans, segments);
    CutInOrder(audio, frames, voiced, p, spans, segments);
    var groups := IterPackedSegments(segments, limit, gap);
    chunks := [];
    for c := 0 to |groups|
      invariant |chunks| == c
      invariant forall d {:trigger chunks[d]} :: 0 <= d < c ==> IsVadChunk(audio, groups[d], gap, d, chunks[d])
    {
      ChunkInOrder(audio, segments, limit, gap, groups, c);
      assert forall k :: 0 <= k < |groups[c]| ==> IsSegment(audio, groups[c][k]);
      var samples, duration, mappings := WriteVadChunk(groups[c], gap);
      chunks := chunks + [VadChunk(c, samples, duration, mappings)];
      assert IsVadChunk(audio, groups[c], gap, c, chunks[c]);
    }
    EmptyExactly(audio, segments, limit, gap);
    assert IsSplit(audio, size, detector, p, limit, gap, chunks, frames, spans, segments);
  }

  lemma EmptyExactly(audio: seq<int>, segments: seq<seq<Frame>>, limit: nat, gap: nat)
    requires InOrder(audio, segments)
    ensures Greedy(Pieces(segments, limit), SegmentLength, gap, limit) == [] <==> segments == []
  {
    PiecesInOrder(audio, segments, limit);
    if segments != [] {
      GreedyNotEmpty(Pieces(segments, limit), SegmentLength, gap, limit);
    }
  }
}
