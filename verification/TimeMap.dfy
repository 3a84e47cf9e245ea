/** `map_chunk_time` (app/stt/merger.py): from a time in a chunk back to a time in the source. */
module TimeMap {
  import opened Chunks

  function Min(a: real, b: real): real {
    if a <= b then a else b
  }

  /** The loop over the mappings from index `i` on, and the code after it. */
  function MapFrom(value: real, m: seq<Mapping>, i: nat): real
    requires m != [] && i <= |m|
    decreases |m| - i
  {
    if i == |m| then
      if value < m[0].chunkStart then m[0].sourceStart else m[|m| - 1].sourceEnd
    else if m[i].chunkStart <= value <= m[i].chunkEnd then
      Min(m[i].sourceStart + (value - m[i].chunkStart), m[i].sourceEnd)
    else if i > 0 && value < m[i].chunkStart then
      if value - m[i - 1].chunkEnd <= m[i].chunkStart - value then m[i - 1].sourceEnd else m[i].sourceStart
    else MapFrom(value, m, i + 1)
  }

  function MapChunkTime(value: real, m: seq<Mapping>): real {
    if m == [] then value else MapFrom(value, m, 0)
  }

  /** Mapping `k` spans a segment and follows the one before it after a gap, in the chunk and in the source. */
  ghost predicate Links(m: seq<Mapping>, gap: real, k: nat)
    requires k < |m|
  {
    && m[k].chunkStart < m[k].chunkEnd
    && m[k].sourceEnd - m[k].sourceStart == m[k].chunkEnd - m[k].chunkStart
    && (k == 0 ==> m[k].chunkStart == 0.0)
    && (k > 0 ==> m[k].chunkStart == m[k - 1].chunkEnd + gap && m[k - 1].sourceEnd <= m[k].sourceStart)
  }

  /** What the chunk writer produces for segments of positive length in source order. */
  ghost predicate WellFormed(m: seq<Mapping>, gap: real) {
    && gap >= 0.0 && m != []
    && forall k {:trigger Links(m, gap, k)} :: 0 <= k < |m| ==> Links(m, gap, k)
  }

  lemma {:induction false} EndsGrow(m: seq<Mapping>, gap: real, j: nat, k: nat)
    requires WellFormed(m, gap) && j < k < |m|
    ensures m[j].chunkEnd <= m[k].chunkStart < m[k].chunkEnd
    ensures m[j].sourceEnd <= m[k].sourceStart < m[k].sourceEnd
    ensures 0.0 <= m[j].chunkStart < m[j].chunkEnd && m[j].sourceStart < m[j].sourceEnd
  {
    assert Links(m, gap, k);
    if j < k - 1 {
      EndsGrow(m, gap, j, k - 1);
    } else {
      assert Links(m, gap, j);
      if j > 0 {
        EndsGrow(m, gap, j - 1, j);
      }
    }
  }

  /** The loop passes over every mapping that ends before the value. */
  lemma {:induction false} SkipsEnded(value: real, m: seq<Mapping>, gap: real, k: nat)
    requires WellFormed(m, gap) && k <= |m| && value >= 0.0
    requires k > 0 ==> m[k - 1].chunkEnd < value
    ensures MapFrom(value, m, 0) == MapFrom(value, m, k)
  {
    if k > 0 {
      assert Links(m, gap, k - 1);
      if k > 1 {
        EndsGrow(m, gap, k - 2, k - 1);
      }
      SkipsEnded(value, m, gap, k - 1);
    }
  }

  /** The first mapping from `i` on that has not ended before the value, or none. */
  function Locate(value: real, m: seq<Mapping>, i: nat): (k: nat)
    requires i <= |m| && (i > 0 ==> m[i - 1].chunkEnd < value)
    ensures i <= k <= |m|
    ensures k > 0 ==> m[k - 1].chunkEnd < value
    ensures k < |m| ==> value <= m[k].chunkEnd
    decreases |m| - i
  {
    if i < |m| && m[i].chunkEnd < value then Locate(value, m, i + 1) else i
  }

  /** Without a map, chunk time is source time. */
  lemma UnmappedTimes(value: real)
    ensures MapChunkTime(value, []) == value
  {
  }

  /** The three ways a non-negative time is mapped: inside a segment exactly, in a gap to the nearer boundary (ties to
      the earlier), after the end to the end. */
  lemma MappedAt(value: real, m: seq<Mapping>, gap: real, k: nat)
    requires WellFormed(m, gap) && value >= 0.0 && k <= |m|
    requires k > 0 ==> m[k - 1].chunkEnd < value
    requires k < |m| ==> value <= m[k].chunkEnd
    ensures MapChunkTime(value, m)
         == if k == |m| then m[k - 1].sourceEnd
            else if k == 0 || m[k].chunkStart <= value then m[k].sourceStart + (value - m[k].chunkStart)
            else if value - m[k - 1].chunkEnd <= m[k].chunkStart - value then m[k - 1].sourceEnd
            else m[k].sourceStart
    ensures k == 0 ==> m[0].chunkStart <= value
  {
    SkipsEnded(value, m, gap, k);
    assert Links(m, gap, 0);
    if k < |m| {
      assert Links(m, gap, k);
    } else {
      assert Links(m, gap, k - 1);
    }
  }

  /** Every instant of a written segment maps back to its own source instant, except that without gaps a segment's
      opening instant belongs to the segment before. */
  lemma SegmentTimesInvert(value: real, m: seq<Mapping>, gap: real, k: nat)
    requires WellFormed(m, gap) && k < |m|
    requires m[k].chunkStart <= value <= m[k].chunkEnd
    ensures k == 0 || gap > 0.0 || value > m[k].chunkStart ==>
              MapChunkTime(value, m) == m[k].sourceStart + (value - m[k].chunkStart)
    ensures !(k == 0 || gap > 0.0 || value > m[k].chunkStart) ==>
              MapChunkTime(value, m) == m[k - 1].sourceEnd
  {
    assert Links(m, gap, k);
    if k > 0 {
      EndsGrow(m, gap, k - 1, k);
      if gap > 0.0 || value > m[k].chunkStart {
        MappedAt(value, m, gap, k);
      } else {
        if k > 1 {
          EndsGrow(m, gap, k - 2, k - 1);
        }
        MappedAt(value, m, gap, k - 1);
        assert Links(m, gap, k - 1);
      }
    } else {
      MappedAt(value, m, gap, 0);
    }
  }

  /** Bounds by location: between the end of the previous segment and the end of its own. */
  lemma MappedBetween(value: real, m: seq<Mapping>, gap: real, k: nat)
    requires WellFormed(m, gap) && value >= 0.0 && k == Locate(value, m, 0)
    ensures k > 0 ==> m[k - 1].sourceEnd <= MapChunkTime(value, m)
    ensures k == 0 ==> m[0].sourceStart <= MapChunkTime(value, m)
    ensures k < |m| ==> MapChunkTime(value, m) <= m[k].sourceEnd
    ensures k == |m| ==> MapChunkTime(value, m) == m[k - 1].sourceEnd
  {
    MappedAt(value, m, gap, k);
    if k < |m| {
      assert Links(m, gap, k);
    }
  }

  lemma {:induction false} LocateMonotone(v: real, w: real, m: seq<Mapping>, i: nat)
    requires v <= w && i <= |m| && (i > 0 ==> m[i - 1].chunkEnd < v)
    ensures Locate(v, m, i) <= Locate(w, m, i)
    decreases |m| - i
  {
    if i < |m| && m[i].chunkEnd < v {
      LocateMonotone(v, w, m, i + 1);
    }
  }

  /** Mapping is monotone for all times from the chunk's start on. */
  lemma MapIsMonotone(v: real, w: real, m: seq<Mapping>, gap: real)
    requires WellFormed(m, gap) && 0.0 <= v <= w
    ensures MapChunkTime(v, m) <= MapChunkTime(w, m)
  {
    var a, b := Locate(v, m, 0), Locate(w, m, 0);
    LocateMonotone(v, w, m, 0);
    MappedBetween(v, m, gap, a);
    MappedBetween(w, m, gap, b);
    if a < b {
      if a < b - 1 {
        EndsGrow(m, gap, a, b - 1);
      }
    } else {
      MappedAt(v, m, gap, a);
      MappedAt(w, m, gap, a);
      if a < |m| {
        assert Links(m, gap, a);
      }
    }
  }

  /** A negative time is mapped to the first source start when there is one mapping, but to the end of the first segment
      when there are more: the gap branch of the second mapping catches it first. */
  lemma NegativeTimes(value: real, m: seq<Mapping>, gap: real)
    requires WellFormed(m, gap) && value < 0.0
    ensures MapChunkTime(value, m) == if |m| == 1 then m[0].sourceStart else m[0].sourceEnd
  {
    assert Links(m, gap, 0);
    assert MapFrom(value, m, 0) == MapFrom(value, m, 1);
    if |m| > 1 {
      assert Links(m, gap, 1);
    }
  }

  /** Every time, even a negative one, is mapped into the chunk's source range. */
  lemma MapStaysInRange(value: real, m: seq<Mapping>, gap: real)
    requires WellFormed(m, gap)
    ensures m[0].sourceStart <= MapChunkTime(value, m) <= m[|m| - 1].sourceEnd
  {
    assert Links(m, gap, 0);
    if |m| > 1 {
      EndsGrow(m, gap, 0, |m| - 1);
    }
    if value < 0.0 {
      NegativeTimes(value, m, gap);
    } else {
      var k := Locate(value, m, 0);
      MappedBetween(value, m, gap, k);
      if 0 < k {
        if k - 1 > 0 {
          EndsGrow(m, gap, 0, k - 1);
        }
      }
      if k < |m| - 1 {
        EndsGrow(m, gap, k, |m| - 1);
      }
    }
  }

  ghost predicate MonotoneEverywhere(m: seq<Mapping>) {
    forall v: real, w: real :: v <= w ==> MapChunkTime(v, m) <= MapChunkTime(w, m)
  }

  /** Monotonicity over all times, negative ones included, holds exactly for a chunk of a single segment. */
  lemma MonotoneOnlyForOneSegment(m: seq<Mapping>, gap: real)
    requires WellFormed(m, gap)
    ensures MonotoneEverywhere(m) <==> |m| == 1
  {
    assert Links(m, gap, 0);
    if |m| == 1 {
      forall v: real, w: real | v <= w ensures MapChunkTime(v, m) <= MapChunkTime(w, m) {
        if v < 0.0 {
          NegativeTimes(v, m, gap);
          MapStaysInRange(w, m, gap);
        } else {
          MapIsMonotone(v, w, m, gap);
        }
      }
    } else {
      NegativeTimes(-1.0, m, gap);
      MappedAt(0.0, m, gap, 0);
      assert MapChunkTime(-1.0, m) > MapChunkTime(0.0, m);
    }
  }

  /** Times of an earlier chunk never map past times of a later one. */
  lemma ChunksMapInOrder(v: real, earlier: seq<Mapping>, w: real, later: seq<Mapping>, gap: real)
    requires WellFormed(earlier, gap) && WellFormed(later, gap)
    requires earlier[|earlier| - 1].sourceEnd <= later[0].sourceStart
    ensures MapChunkTime(v, earlier) <= MapChunkTime(w, later)
  {
    MapStaysInRange(v, earlier, gap);
    MapStaysInRange(w, later, gap);
  }

  /** The concrete input that breaks monotonicity: two one-sample segments, times -1 and 0. */
  lemma NegativeTimeCounterexample()
    ensures var m := [Mapping(0.0, 1.0, 10.0, 11.0), Mapping(1.0, 2.0, 20.0, 21.0)];
            && WellFormed(m, 0.0)
            && MapChunkTime(-1.0, m) == 11.0 && MapChunkTime(0.0, m) == 10.0
  {
    var m := [Mapping(0.0, 1.0, 10.0, 11.0), Mapping(1.0, 2.0, 20.0, 21.0)];
    forall k | 0 <= k < |m| ensures Links(m, 0.0, k) {
    }
    NegativeTimes(-1.0, m, 0.0);
    MappedAt(0.0, m, 0.0, 0);
  }

  /** The concrete input for a zero gap: the opening instant of the second of two segments with dropped audio between
      them maps to the end of the first. */
  lemma ZeroGapCounterexample()
    ensures var m := [Mapping(0.0, 1.0, 10.0, 11.0), Mapping(1.0, 2.0, 20.0, 21.0)];
            WellFormed(m, 0.0) && MapChunkTime(1.0, m) == 11.0 < m[1].sourceStart
  {
    NegativeTimeCounterexample();
    var m := [Mapping(0.0, 1.0, 10.0, 11.0), Mapping(1.0, 2.0, 20.0, 21.0)];
    SegmentTimesInvert(1.0, m, 0.0, 1);
  }
}
