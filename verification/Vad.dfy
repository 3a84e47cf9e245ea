/**
 Speech segmentation (app/stt/vad.py). Audio is a sequence of samples and times are sample counts; the voice detector is
 an arbitrary flag per frame.
 */
module Vad {

  /** `start` is the frame's first sample in the source. */
  datatype Frame = Frame(data: seq<int>, start: nat)

  // ---------------------------------------------------------------- frames of a file

  function End(f: Frame): nat {
    f.start + |f.data|
  }

  /** The frame holds the source samples at its own position. */
  predicate InSource(audio: seq<int>, f: Frame) {
    |f.data| > 0 && End(f) <= |audio| && f.data == audio[f.start..End(f)]
  }

  /** Each frame begins where the one before it ends. */
  ghost predicate Contiguous(frames: seq<Frame>) {
    forall i :: 0 < i < |frames| ==> frames[i].start == End(frames[i - 1])
  }

  function Position(frames: seq<Frame>): nat {
    if frames == [] then 0 else End(frames[|frames| - 1])
  }

  /** `iter_pcm_frames`: equal whole frames from the first sample on; only a tail shorter than a frame is dropped. */
  method IterPcmFrames(audio: seq<int>, size: nat) returns (frames: seq<Frame>)
    requires size > 0
    ensures frames != [] ==> frames[0].start == 0
    ensures Contiguous(frames)
    ensures forall i :: 0 <= i < |frames| ==> InSource(audio, frames[i]) && |frames[i].data| == size
    ensures Position(frames) <= |audio| < Position(frames) + size
  {
    frames := [];
    var position := 0;
    while position + size <= |audio|
      invariant position == Position(frames) <= |audio|
      invariant frames != [] ==> frames[0].start == 0
      invariant Contiguous(frames)
      invariant forall i :: 0 <= i < |frames| ==> InSource(audio, frames[i]) && |frames[i].data| == size
      decreases |audio| - position
    {
      frames := frames + [Frame(audio[position..position + size], position)];
      position := position + size;
    }
  }

  /** Frame `i` of equal frames starts at sample `i * size`. */
  lemma {:induction false} FrameStart(frames: seq<Frame>, size: nat, i: nat)
    requires i < |frames| && Contiguous(frames) && frames[0].start == 0
    requires forall k :: 0 <= k < |frames| ==> |frames[k].data| == size
    ensures frames[i].start == i * size
  {
    if i > 0 {
      FrameStart(frames, size, i - 1);
      assert frames[i].start == End(frames[i - 1]);
      assert i * size == (i - 1) * size + size;
    }
  }

  // ---------------------------------------------------------------- what a segmentation is

  function CountOf(flags: seq<bool>, flag: bool): (n: nat)
    ensures n <= |flags|
  {
    if flags == [] then 0 else (if flags[0] == flag then 1 else 0) + CountOf(flags[1..], flag)
  }

  /** Enough of the window has the given flag. */
  predicate Qualifies(window: seq<bool>, flag: bool, ratio: real) {
    CountOf(window, flag) as real >= ratio * |window| as real
  }

  datatype Params = Params(padding: nat, ratio: real)

  /** `padding` frames from `t` on are voiced enough to start a segment. */
  predicate Starts(voiced: seq<bool>, p: Params, t: nat) {
    t + p.padding <= |voiced| && Qualifies(voiced[t..t + p.padding], true, p.ratio)
  }

  /** The `padding` frames before `h` are unvoiced enough to end a segment. */
  predicate Ends(voiced: seq<bool>, p: Params, h: nat) {
    p.padding <= h <= |voiced| && Qualifies(voiced[h - p.padding..h], false, p.ratio)
  }

  datatype Span = Span(lo: nat, hi: nat)

  /** `lo` is the first start at or after `from`. */
  ghost predicate OpensAt(voiced: seq<bool>, p: Params, from: nat, lo: nat) {
    from <= lo && Starts(voiced, p, lo) && forall t :: from <= t < lo ==> !Starts(voiced, p, t)
  }

  /** The closing windows lie after the trigger window; `hi` is the end of the first that qualifies. */
  ghost predicate ClosesAt(voiced: seq<bool>, p: Params, s: Span) {
    && s.lo + 2 * p.padding <= s.hi && Ends(voiced, p, s.hi)
    && forall h :: s.lo + 2 * p.padding <= h < s.hi ==> !Ends(voiced, p, h)
  }

  /** The segment lasts until the audio ends. */
  ghost predicate RunsOut(voiced: seq<bool>, p: Params, s: Span) {
    && s.lo + p.padding <= s.hi == |voiced|
    && forall h :: s.lo + 2 * p.padding <= h <= |voiced| ==> !Ends(voiced, p, h)
  }

  ghost predicate Quiet(voiced: seq<bool>, p: Params, from: nat) {
    forall t :: from <= t ==> !Starts(voiced, p, t)
  }

  /** Where the search for span `k` begins. */
  function SearchFrom(spans: seq<Span>, k: nat): nat
    requires k <= |spans|
  {
    if k == 0 then 0 else spans[k - 1].hi
  }

  /** Span `k` opens at the first start after its predecessor and closes at its first end. */
  ghost predicate ClosedSpan(voiced: seq<bool>, p: Params, spans: seq<Span>, k: nat)
    requires k < |spans|
  {
    OpensAt(voiced, p, SearchFrom(spans, k), spans[k].lo) && ClosesAt(voiced, p, spans[k])
  }

  ghost predicate ClosedSpans(voiced: seq<bool>, p: Params, spans: seq<Span>) {
    forall k {:trigger ClosedSpan(voiced, p, spans, k)} :: 0 <= k < |spans| ==> ClosedSpan(voiced, p, spans, k)
  }

  /** The segmentation of a flag sequence, without any buffer or state. */
  ghost predicate IsSegmentation(voiced: seq<bool>, p: Params, spans: seq<Span>) {
    || (ClosedSpans(voiced, p, spans) && Quiet(voiced, p, SearchFrom(spans, |spans|)))
    || (&& spans != []
        && var last := |spans| - 1;
           && ClosedSpans(voiced, p, spans[..last])
           && OpensAt(voiced, p, SearchFrom(spans, last), spans[last].lo)
           && RunsOut(voiced, p, spans[last]))
  }

  // ---------------------------------------------------------------- the ring-buffer loop

  /** `deque.append` with `maxlen`. */
  function Push<T>(ring: seq<T>, x: T, size: nat): seq<T>
    requires size > 0
  {
    if |ring| < size then ring + [x] else ring[1..] + [x]
  }

  function Flags(ring: seq<(Frame, bool)>): seq<bool> {
    seq(|ring|, k requires 0 <= k < |ring| => ring[k].1)
  }

  function Frames(ring: seq<(Frame, bool)>): seq<Frame> {
    seq(|ring|, k requires 0 <= k < |ring| => ring[k].0)
  }

  /** The buffer holds the last `padding` frames seen since `base`, oldest first. */
  ghost predicate HoldsRecent(ring: seq<(Frame, bool)>, frames: seq<Frame>, voiced: seq<bool>, size: nat, base: nat,
                              i: nat)
  {
    && base <= i <= |frames| == |voiced|
    && |ring| == (if i - base < size then i - base else size)
    && forall k {:trigger HoldsAt(ring, frames, voiced, i, k)} :: 0 <= k < |ring| ==>
         HoldsAt(ring, frames, voiced, i, k)
  }

  ghost predicate HoldsAt(ring: seq<(Frame, bool)>, frames: seq<Frame>, voiced: seq<bool>, i: nat, k: nat)
    requires k < |ring| <= i <= |frames| == |voiced|
  {
    ring[k] == (frames[i - |ring| + k], voiced[i - |ring| + k])
  }

  lemma PushKeepsRecent(ring: seq<(Frame, bool)>, frames: seq<Frame>, voiced: seq<bool>, size: nat, base: nat, i: nat)
    requires size > 0 && HoldsRecent(ring, frames, voiced, size, base, i) && i < |frames|
    ensures HoldsRecent(Push(ring, (frames[i], voiced[i]), size), frames, voiced, size, base, i + 1)
  {
    var ring' := Push(ring, (frames[i], voiced[i]), size);
    var next := i + 1;
    forall k | 0 <= k < |ring'| ensures HoldsAt(ring', frames, voiced, next, k) {
      var before := k + |ring| + 1 - |ring'|;
      assert before < |ring| ==> HoldsAt(ring, frames, voiced, i, before);
    }
  }

  lemma RecentWindow(ring: seq<(Frame, bool)>, frames: seq<Frame>, voiced: seq<bool>, size: nat, base: nat, i: nat)
    requires HoldsRecent(ring, frames, voiced, size, base, i) && |ring| == size
    ensures size <= i && Flags(ring) == voiced[i - size..i] && Frames(ring) == frames[i - size..i]
  {
    forall k | 0 <= k < size
      ensures Flags(ring)[k] == voiced[i - size..i][k] && Frames(ring)[k] == frames[i - size..i][k]
    {
      assert HoldsAt(ring, frames, voiced, i, k);
    }
  }

  /** Not triggered: nothing since the last span could have started a segment. */
  ghost predicate Waiting(frames: seq<Frame>, voiced: seq<bool>, p: Params, ring: seq<(Frame, bool)>, from: nat,
                          i: nat)
  {
    && HoldsRecent(ring, frames, voiced, p.padding, from, i)
    && forall t {:trigger Starts(voiced, p, t)} :: from <= t && t + p.padding <= i ==> !Starts(voiced, p, t)
  }

  /** Triggered at `lo`: nothing since could have ended the segment. */
  ghost predicate Speaking(frames: seq<Frame>, voiced: seq<bool>, p: Params, ring: seq<(Frame, bool)>, from: nat,
                           lo: nat, i: nat)
  {
    && OpensAt(voiced, p, from, lo)
    && lo + p.padding <= i
    && HoldsRecent(ring, frames, voiced, p.padding, lo + p.padding, i)
    && forall h {:trigger Ends(voiced, p, h)} :: lo + 2 * p.padding <= h <= i ==> !Ends(voiced, p, h)
  }

  lemma WaitingStep(frames: seq<Frame>, voiced: seq<bool>, p: Params, ring: seq<(Frame, bool)>, from: nat, i: nat)
    requires p.padding > 0 && i < |frames| && Waiting(frames, voiced, p, ring, from, i)
    ensures var ring' := Push(ring, (frames[i], voiced[i]), p.padding);
            if |ring'| == p.padding && Qualifies(Flags(ring'), true, p.ratio)
            then && from <= i + 1 - p.padding
                 && Speaking(frames, voiced, p, [], from, i + 1 - p.padding, i + 1)
                 && Frames(ring') == frames[i + 1 - p.padding..i + 1]
            else Waiting(frames, voiced, p, ring', from, i + 1)
  {
    var ring' := Push(ring, (frames[i], voiced[i]), p.padding);
    PushKeepsRecent(ring, frames, voiced, p.padding, from, i);
    if |ring'| == p.padding {
      RecentWindow(ring', frames, voiced, p.padding, from, i + 1);
      assert Starts(voiced, p, i + 1 - p.padding) <==> Qualifies(Flags(ring'), true, p.ratio);
    }
  }

  lemma SpeakingStep(frames: seq<Frame>, voiced: seq<bool>, p: Params, ring: seq<(Frame, bool)>, from: nat, lo: nat,
                     i: nat)
    requires p.padding > 0 && i < |frames| && Speaking(frames, voiced, p, ring, from, lo, i)
    ensures var ring' := Push(ring, (frames[i], voiced[i]), p.padding);
            if |ring'| == p.padding && Qualifies(Flags(ring'), false, p.ratio)
            then ClosesAt(voiced, p, Span(lo, i + 1)) && Waiting(frames, voiced, p, [], i + 1, i + 1)
            else Speaking(frames, voiced, p, ring', from, lo, i + 1)
  {
    var ring' := Push(ring, (frames[i], voiced[i]), p.padding);
    PushKeepsRecent(ring, frames, voiced, p.padding, lo + p.padding, i);
    if |ring'| == p.padding {
      RecentWindow(ring', frames, voiced, p.padding, lo + p.padding, i + 1);
      assert Ends(voiced, p, i + 1) <==> Qualifies(Flags(ring'), false, p.ratio);
    }
  }

  predicate IsCut(frames: seq<Frame>, s: Span, segment: seq<Frame>) {
    s.lo < s.hi <= |frames| && segment == frames[s.lo..s.hi]
  }

  /** Segment `k` is the frames of span `k`. */
  ghost predicate Cut(frames: seq<Frame>, spans: seq<Span>, segments: seq<seq<Frame>>) {
    && |segments| == |spans|
    && forall k {:trigger IsCut(frames, spans[k], segments[k])} ::
         0 <= k < |spans| ==> IsCut(frames, spans[k], segments[k])
  }

  lemma CutAppend(frames: seq<Frame>, spans: seq<Span>, segments: seq<seq<Frame>>, s: Span, segment: seq<Frame>)
    requires Cut(frames, spans, segments)
    requires IsCut(frames, s, segment)
    ensures Cut(frames, spans + [s], segments + [segment])
  {
    forall k | 0 <= k < |spans| + 1 ensures IsCut(frames, (spans + [s])[k], (segments + [segment])[k]) {
      if k < |spans| {
        assert IsCut(frames, spans[k], segments[k]);
      }
    }
  }

  lemma SliceAppend(frames: seq<Frame>, lo: nat, i: nat)
    requires lo <= i < |frames|
    ensures frames[lo..i] + [frames[i]] == frames[lo..i + 1]
  {
  }

  /** The variables of the loop. */
  datatype Loop = Loop(triggered: bool, ring: seq<(Frame, bool)>, voicedFrames: seq<Frame>, segments: seq<seq<Frame>>)

  function WaitingTurn(s: Loop, p: Params): Loop {
    if |s.ring| == p.padding && Qualifies(Flags(s.ring), true, p.ratio)
    then Loop(true, [], Frames(s.ring), s.segments)
    else s
  }

  function SpeakingTurn(s: Loop, p: Params): Loop {
    if |s.ring| == p.padding && Qualifies(Flags(s.ring), false, p.ratio)
    then Loop(false, [], [], s.segments + [s.voicedFrames])
    else s
  }

  function Turn(s: Loop, frame: Frame, voiced: bool, p: Params): Loop
    requires p.padding > 0
  {
    var ring := Push(s.ring, (frame, voiced), p.padding);
    if s.triggered then SpeakingTurn(s.(ring := ring, voicedFrames := s.voicedFrames + [frame]), p)
    else WaitingTurn(s.(ring := ring), p)
  }

  /** The loop's variables after `i` frames. */
  function After(frames: seq<Frame>, voiced: seq<bool>, p: Params, i: nat): Loop
    requires p.padding > 0 && i <= |frames| == |voiced|
  {
    if i == 0 then Loop(false, [], [], [])
    else Turn(After(frames, voiced, p, i - 1), frames[i - 1], voiced[i - 1], p)
  }

  /** What the loop yields, the open segment included. */
  function Yielded(s: Loop): seq<seq<Frame>> {
    if s.voicedFrames != [] then s.segments + [s.voicedFrames] else s.segments
  }

  /** What the variables mean after `i` frames. */
  ghost predicate Progress(frames: seq<Frame>, voiced: seq<bool>, p: Params, spans: seq<Span>, s: Loop, lo: nat,
                           i: nat)
  {
    && i <= |frames|
    && ClosedSpans(voiced, p, spans) && Cut(frames, spans, s.segments)
    && if s.triggered
       then Speaking(frames, voiced, p, s.ring, SearchFrom(spans, |spans|), lo, i) && s.voicedFrames == frames[lo..i]
       else s.voicedFrames == [] && Waiting(frames, voiced, p, s.ring, SearchFrom(spans, |spans|), i)
  }

  lemma WaitingProgress(frames: seq<Frame>, voiced: seq<bool>, p: Params, spans: seq<Span>, s: Loop, lo: nat, i: nat)
    returns (lo': nat)
    requires p.padding > 0 && i < |frames| == |voiced| && !s.triggered
    requires Progress(frames, voiced, p, spans, s, lo, i)
    ensures Progress(frames, voiced, p, spans, Turn(s, frames[i], voiced[i], p), lo', i + 1)
  {
    WaitingStep(frames, voiced, p, s.ring, SearchFrom(spans, |spans|), i);
    lo' := if Turn(s, frames[i], voiced[i], p).triggered then i + 1 - p.padding else lo;
  }

  lemma SpeakingProgress(frames: seq<Frame>, voiced: seq<bool>, p: Params, spans: seq<Span>, s: Loop, lo: nat, i: nat)
    returns (spans': seq<Span>)
    requires p.padding > 0 && i < |frames| == |voiced| && s.triggered
    requires Progress(frames, voiced, p, spans, s, lo, i)
    ensures Progress(frames, voiced, p, spans', Turn(s, frames[i], voiced[i], p), lo, i + 1)
  {
    SpeakingStep(frames, voiced, p, s.ring, SearchFrom(spans, |spans|), lo, i);
    SliceAppend(frames, lo, i);
    if Turn(s, frames[i], voiced[i], p).triggered {
      spans' := spans;
    } else {
      spans' := spans + [Span(lo, i + 1)];
      CloseSpan(voiced, p, spans, Span(lo, i + 1));
      CutAppend(frames, spans, s.segments, Span(lo, i + 1), frames[lo..i + 1]);
    }
  }

  lemma {:induction false} LoopProgress(frames: seq<Frame>, voiced: seq<bool>, p: Params, i: nat)
    returns (spans: seq<Span>, lo: nat)
    requires p.padding > 0 && i <= |frames| == |voiced|
    ensures Progress(frames, voiced, p, spans, After(frames, voiced, p, i), lo, i)
  {
    if i == 0 {
      spans, lo := [], 0;
    } else {
      var h := i - 1;
      var s := After(frames, voiced, p, h);
      spans, lo := LoopProgress(frames, voiced, p, h);
      if s.triggered {
        spans := SpeakingProgress(frames, voiced, p, spans, s, lo, h);
      } else {
        lo := WaitingProgress(frames, voiced, p, spans, s, lo, h);
      }
    }
  }

  lemma ProgressEnds(frames: seq<Frame>, voiced: seq<bool>, p: Params, spans: seq<Span>, s: Loop, lo: nat)
    requires p.padding > 0 && |voiced| == |frames|
    requires Progress(frames, voiced, p, spans, s, lo, |frames|)
    ensures IsSpeech(frames, voiced, p, Yielded(s))
  {
    if s.triggered {
      FinishSpan(voiced, p, spans, Span(lo, |frames|));
      CutAppend(frames, spans, s.segments, Span(lo, |frames|), s.voicedFrames);
      SpeechOf(frames, voiced, p, spans + [Span(lo, |frames|)], Yielded(s));
    } else {
      SpeechOf(frames, voiced, p, spans, s.segments);
    }
  }

  /** The segments cut out by the segmentation of the flags. */
  ghost predicate IsSpeech(frames: seq<Frame>, voiced: seq<bool>, p: Params, segments: seq<seq<Frame>>) {
    exists spans :: IsSegmentation(voiced, p, spans) && Cut(frames, spans, segments)
  }

  lemma SpeechOf(frames: seq<Frame>, voiced: seq<bool>, p: Params, spans: seq<Span>, segments: seq<seq<Frame>>)
    requires IsSegmentation(voiced, p, spans) && Cut(frames, spans, segments)
    ensures IsSpeech(frames, voiced, p, segments)
  {
  }

  /** `iter_speech_segments`: the segments are exactly the spans of the segmentation. */
  method IterSpeechSegments(frames: seq<Frame>, voiced: seq<bool>, p: Params)
    returns (segments: seq<seq<Frame>>)
    requires |voiced| == |frames| && p.padding > 0
    ensures IsSpeech(frames, voiced, p, segments)
  {
    var ring: seq<(Frame, bool)> := [];
    var voicedFrames: seq<Frame> := [];
    var triggered := false;
    segments := [];
    for i := 0 to |frames|
      invariant Loop(triggered, ring, voicedFrames, segments) == After(frames, voiced, p, i)
      invariant !triggered ==> voicedFrames == []
    {
      if !triggered {
        ring := Push(ring, (frames[i], voiced[i]), p.padding);
        if |ring| == p.padding && Qualifies(Flags(ring), true, p.ratio) {
          triggered := true;
          voicedFrames := voicedFrames + Frames(ring);
          ring := [];
        }
      } else {
        voicedFrames := voicedFrames + [frames[i]];
        ring := Push(ring, (frames[i], voiced[i]), p.padding);
        if |ring| == p.padding && Qualifies(Flags(ring), false, p.ratio) {
          segments := segments + [voicedFrames];
          voicedFrames, ring, triggered := [], [], false;
        }
      }
    }
    if voicedFrames != [] {
      segments := segments + [voicedFrames];
    }
    LoopIsSpeech(frames, voiced, p);
  }

  lemma LoopIsSpeech(frames: seq<Frame>, voiced: seq<bool>, p: Params)
    requires |voiced| == |frames| && p.padding > 0
    ensures IsSpeech(frames, voiced, p, Yielded(After(frames, voiced, p, |frames|)))
  {
    var spans, lo := LoopProgress(frames, voiced, p, |frames|);
    ProgressEnds(frames, voiced, p, spans, After(frames, voiced, p, |frames|), lo);
  }

  lemma CloseSpan(voiced: seq<bool>, p: Params, spans: seq<Span>, s: Span)
    requires ClosedSpans(voiced, p, spans)
    requires OpensAt(voiced, p, SearchFrom(spans, |spans|), s.lo) && ClosesAt(voiced, p, s)
    ensures ClosedSpans(voiced, p, spans + [s])
  {
    var all := spans + [s];
    forall k | 0 <= k < |all| ensures ClosedSpan(voiced, p, all, k) {
      if k < |spans| {
        assert ClosedSpan(voiced, p, spans, k);
        assert spans[k] == all[k] && SearchFrom(spans, k) == SearchFrom(all, k);
      }
    }
  }

  lemma FinishSpan(voiced: seq<bool>, p: Params, spans: seq<Span>, s: Span)
    requires ClosedSpans(voiced, p, spans)
    requires OpensAt(voiced, p, SearchFrom(spans, |spans|), s.lo) && RunsOut(voiced, p, s)
    ensures IsSegmentation(voiced, p, spans + [s])
  {
    var all := spans + [s];
    assert all[..|all| - 1] == spans;
  }

  // ---------------------------------------------------------------- consequences of the specification

  /** The frames of a window that have the given flag. */
  function Flagged(voiced: seq<bool>, flag: bool, lo: nat, hi: nat): set<int>
    requires hi <= |voiced|
  {
    set k | lo <= k < hi && voiced[k] == flag
  }

  lemma {:induction false} CountExactly(voiced: seq<bool>, flag: bool, lo: nat, hi: nat)
    requires lo <= hi <= |voiced|
    ensures CountOf(voiced[lo..hi], flag) == |Flagged(voiced, flag, lo, hi)|
    decreases hi - lo
  {
    if lo < hi {
      CountExactly(voiced, flag, lo + 1, hi);
      assert voiced[lo..hi][1..] == voiced[lo + 1..hi];
      assert Flagged(voiced, flag, lo, hi)
          == Flagged(voiced, flag, lo + 1, hi) + if voiced[lo] == flag then {lo} else {};
    } else {
      assert Flagged(voiced, flag, lo, hi) == {};
    }
  }

  /** The given share of the window. */
  predicate IsShare(count: nat, size: nat, ratio: real) {
    count as real >= ratio * size as real
  }

  lemma QualifiesByCount(window: seq<bool>, flag: bool, ratio: real, count: nat, size: nat)
    requires CountOf(window, flag) == count && |window| == size
    ensures Qualifies(window, flag, ratio) <==> IsShare(count, size, ratio)
  {
  }

  lemma QualifiesExactly(voiced: seq<bool>, flag: bool, ratio: real, lo: nat, hi: nat)
    requires lo <= hi <= |voiced|
    ensures Qualifies(voiced[lo..hi], flag, ratio) <==> IsShare(|Flagged(voiced, flag, lo, hi)|, hi - lo, ratio)
  {
    CountExactly(voiced, flag, lo, hi);
    QualifiesByCount(voiced[lo..hi], flag, ratio, |Flagged(voiced, flag, lo, hi)|, hi - lo);
  }

  /** A window opens a segment exactly when the given share of its frames is voiced. */
  lemma StartsExactly(voiced: seq<bool>, p: Params, t: nat)
    ensures Starts(voiced, p, t)
       <==> && t + p.padding <= |voiced|
            && IsShare(|Flagged(voiced, true, t, t + p.padding)|, p.padding, p.ratio)
  {
    if t + p.padding <= |voiced| {
      QualifiesExactly(voiced, true, p.ratio, t, t + p.padding);
    }
  }

  /** It closes one exactly when that share is unvoiced. */
  lemma EndsExactly(voiced: seq<bool>, p: Params, h: nat)
    ensures Ends(voiced, p, h)
       <==> && p.padding <= h <= |voiced|
            && IsShare(|Flagged(voiced, false, h - p.padding, h)|, p.padding, p.ratio)
  {
    if p.padding <= h <= |voiced| {
      QualifiesExactly(voiced, false, p.ratio, h - p.padding, h);
    }
  }

  /** In a segmentation every span opens at the first start after its predecessor's end; every span but the last closes,
      and the last closes or runs out. */
  lemma SpanFacts(voiced: seq<bool>, p: Params, spans: seq<Span>, k: nat)
    requires p.padding > 0 && IsSegmentation(voiced, p, spans) && k < |spans|
    ensures OpensAt(voiced, p, SearchFrom(spans, k), spans[k].lo)
    ensures ClosesAt(voiced, p, spans[k]) || (k == |spans| - 1 && RunsOut(voiced, p, spans[k]))
    ensures SearchFrom(spans, k) <= spans[k].lo && spans[k].lo + p.padding <= spans[k].hi <= |voiced|
  {
    if ClosedSpans(voiced, p, spans) {
      assert ClosedSpan(voiced, p, spans, k);
    } else {
      var last := |spans| - 1;
      if k < last {
        assert ClosedSpan(voiced, p, spans[..last], k);
        assert SearchFrom(spans[..last], k) == SearchFrom(spans, k);
      } else {
        assert k == last;
      }
    }
  }

  /** Spans are disjoint and in order. */
  lemma {:induction false} SpansInOrder(voiced: seq<bool>, p: Params, spans: seq<Span>, k: nat, l: nat)
    requires p.padding > 0 && IsSegmentation(voiced, p, spans) && k < l < |spans|
    ensures spans[k].hi <= spans[l].lo
  {
    SpanFacts(voiced, p, spans, l);
    if k < l - 1 {
      SpansInOrder(voiced, p, spans, k, l - 1);
      SpanFacts(voiced, p, spans, l - 1);
    }
  }

  /** The run of frames dropped before span `k`, or after the last span, holds no window voiced enough to start one. */
  lemma DroppedIsQuiet(voiced: seq<bool>, p: Params, spans: seq<Span>, k: nat, t: nat)
    requires p.padding > 0 && IsSegmentation(voiced, p, spans) && k <= |spans|
    requires SearchFrom(spans, k) <= t
    requires t + p.padding <= if k < |spans| then spans[k].lo else |voiced|
    ensures !Starts(voiced, p, t)
  {
    if k < |spans| {
      SpanFacts(voiced, p, spans, k);
    }
  }

  /** The specification leaves no freedom: a flag sequence has exactly one segmentation. */
  lemma SegmentationUnique(voiced: seq<bool>, p: Params, a: seq<Span>, b: seq<Span>)
    requires p.padding > 0 && IsSegmentation(voiced, p, a) && IsSegmentation(voiced, p, b)
    ensures a == b
  {
    if |a| <= |b| {
      SegmentationPrefix(voiced, p, a, b, |a|);
    } else {
      SegmentationPrefix(voiced, p, b, a, |b|);
    }
  }

  /** Two segmentations agree as far as the shorter goes, and then the longer has nothing left. */
  lemma {:induction false} SegmentationPrefix(voiced: seq<bool>, p: Params, a: seq<Span>, b: seq<Span>, n: nat)
    requires p.padding > 0 && IsSegmentation(voiced, p, a) && IsSegmentation(voiced, p, b)
    requires n <= |a| <= |b|
    ensures a[..n] == b[..n]
    ensures n == |a| ==> |a| == |b|
  {
    if n > 0 {
      SegmentationPrefix(voiced, p, a, b, n - 1);
      assert SearchFrom(a, n - 1) == SearchFrom(b, n - 1) by {
        if n > 1 {
          assert a[..n - 1][n - 2] == b[..n - 1][n - 2];
        }
      }
      SpanFacts(voiced, p, a, n - 1);
      SpanFacts(voiced, p, b, n - 1);
      SameSpan(voiced, p, SearchFrom(a, n - 1), a[n - 1], b[n - 1]);
      assert a[..n] == a[..n - 1] + [a[n - 1]] && b[..n] == b[..n - 1] + [b[n - 1]];
    }
    if n == |a| {
      NothingLeft(voiced, p, a);
      NoMoreSpans(voiced, p, a, b);
    }
  }

  lemma SameSpan(voiced: seq<bool>, p: Params, from: nat, s: Span, t: Span)
    requires OpensAt(voiced, p, from, s.lo) && OpensAt(voiced, p, from, t.lo)
    requires ClosesAt(voiced, p, s) || RunsOut(voiced, p, s)
    requires ClosesAt(voiced, p, t) || RunsOut(voiced, p, t)
    ensures s == t
  {
    assert s.lo == t.lo;
  }

  lemma NothingLeft(voiced: seq<bool>, p: Params, spans: seq<Span>)
    requires p.padding > 0 && IsSegmentation(voiced, p, spans)
    ensures Quiet(voiced, p, SearchFrom(spans, |spans|))
  {
  }

  lemma NoMoreSpans(voiced: seq<bool>, p: Params, a: seq<Span>, b: seq<Span>)
    requires p.padding > 0 && IsSegmentation(voiced, p, b)
    requires |a| <= |b| && a == b[..|a|] && Quiet(voiced, p, SearchFrom(a, |a|))
    ensures |a| == |b|
  {
    var n := |a|;
    assert SearchFrom(b, n) == SearchFrom(a, n);
    if n < |b| {
      SpanFacts(voiced, p, b, n);
    }
  }
}
