/**
 * The two waveform splitters of `yellow_legged_alert/sound.py`.
 *
 * A waveform is a sequence of opaque samples `S`. The audio primitives are
 * parameters: `denoise` stands for `noisereduce.reduce_noise`, `detect` for
 * `librosa.effects.split` and `trimmer` for `librosa.effects.trim`.
 */
module Segmenter {
  import opened Wrappers

  /** A `[start, stop)` pair of sample indices: one row of the detector's result. */
  datatype Interval = Interval(start: nat, stop: nat)

  /** The `limits` argument: falsy (None or an empty list), or `[lo, hi]` in seconds. */
  datatype Limits = Unlimited | Within(lo: real, hi: real)

  function Min(a: int, b: int): int {
    if a <= b then a else b
  }

  /** `w[start:stop]` for non-negative indices: Python clamps both ends to the length. */
  function Slice<S>(w: seq<S>, start: nat, stop: nat): (r: seq<S>)
    ensures |r| <= |w|
    ensures forall k :: 0 <= k < |r| ==> start + k < |w| && r[k] == w[start + k]
    ensures |r| == if start < Min(stop, |w|) then Min(stop, |w|) - start else 0
  {
    var s := Min(start, |w|);
    var e := Min(stop, |w|);
    if s < e then w[s..e] else []
  }

  /** Every interval lies inside a buffer of `length` samples. */
  predicate InBounds(intervals: seq<Interval>, length: nat) {
    forall k :: 0 <= k < |intervals| ==> intervals[k].start <= intervals[k].stop <= length
  }

  /**
   * The comprehension's filter: no limits, or `lo <= (stop - start) / sample_rate <= hi`.
   * The interval bounds are numpy integers, so a zero rate gives inf or nan rather than
   * an exception, and neither lies between finite limits.
   */
  predicate InLimits(iv: Interval, sampleRate: nat, limits: Limits) {
    match limits
    case Unlimited => true
    case Within(lo, hi) => sampleRate > 0 && lo <= (iv.stop - iv.start) as real / sampleRate as real <= hi
  }

  // ---------------------------------------------------------------------------
  // Noise reduction

  /** `reduce_noise`: the denoised buffer, paired with the sample rate it was given. */
  function ReduceNoise<S>(w: seq<S>, sampleRate: nat, denoise: (seq<S>, nat) -> seq<S>): (r: (seq<S>, nat))
    ensures r.1 == sampleRate
  {
    (denoise(w, sampleRate), sampleRate)
  }

  // ---------------------------------------------------------------------------
  // Splitting on silence

  /** The buffer the detector runs on: the denoised one when `removeNoise`, else the waveform. */
  function DetectionBuffer<S>(w: seq<S>, sampleRate: nat, removeNoise: bool,
                              denoise: (seq<S>, nat) -> seq<S>): seq<S>
  {
    if removeNoise then ReduceNoise(w, sampleRate, denoise).0 else w
  }

  /** The list comprehension: a slice of `w` for each interval that passes the filter, in order. */
  function SelectClips<S>(w: seq<S>, intervals: seq<Interval>, sampleRate: nat, limits: Limits): (clips: seq<seq<S>>)
    ensures |clips| <= |intervals|
  {
    if intervals == [] then []
    else
      var iv := intervals[0];
      (if InLimits(iv, sampleRate, limits) then [Slice(w, iv.start, iv.stop)] else [])
        + SelectClips(w, intervals[1..], sampleRate, limits)
  }

  /**
   * The reference definition of the filter: the positions, from `from` on, of the
   * intervals that pass it — strictly increasing, every one passing, none missed.
   */
  function KeptFrom(intervals: seq<Interval>, sampleRate: nat, limits: Limits, from: nat): (idx: seq<nat>)
    requires from <= |intervals|
    ensures |idx| <= |intervals| - from
    ensures forall k :: 0 <= k < |idx| ==> from <= idx[k] < |intervals| && InLimits(intervals[idx[k]], sampleRate, limits)
    ensures forall k, l :: 0 <= k < l < |idx| ==> idx[k] < idx[l]
    decreases |intervals| - from
  {
    if from == |intervals| then []
    else
      (if InLimits(intervals[from], sampleRate, limits) then [from] else [])
        + KeptFrom(intervals, sampleRate, limits, from + 1)
  }

  /** No passing position is missed. */
  lemma {:induction false} KeptFromComplete(intervals: seq<Interval>, sampleRate: nat, limits: Limits, from: nat, j: nat)
    requires from <= j < |intervals| && InLimits(intervals[j], sampleRate, limits)
    ensures j in KeptFrom(intervals, sampleRate, limits, from)
    decreases |intervals| - from
  {
    if j > from {
      KeptFromComplete(intervals, sampleRate, limits, from + 1, j);
    }
  }

  function KeptIndices(intervals: seq<Interval>, sampleRate: nat, limits: Limits): seq<nat>
  {
    KeptFrom(intervals, sampleRate, limits, 0)
  }

  /** The comprehension slices exactly the intervals the reference filter keeps, in order. */
  lemma {:induction false} SelectClipsFrom<S>(w: seq<S>, intervals: seq<Interval>, sampleRate: nat, limits: Limits, from: nat)
    requires from <= |intervals|
    ensures var clips, idx := SelectClips(w, intervals[from..], sampleRate, limits), KeptFrom(intervals, sampleRate, limits, from);
      |clips| == |idx| &&
      forall k :: 0 <= k < |idx| ==> clips[k] == Slice(w, intervals[idx[k]].start, intervals[idx[k]].stop)
    decreases |intervals| - from
  {
    if from < |intervals| {
      SelectClipsFrom(w, intervals, sampleRate, limits, from + 1);
      var iv := intervals[from];
      assert intervals[from..][0] == iv;
      assert intervals[from..][1..] == intervals[from + 1..];
      var rest, restIdx := SelectClips(w, intervals[from + 1..], sampleRate, limits), KeptFrom(intervals, sampleRate, limits, from + 1);
      if InLimits(iv, sampleRate, limits) {
        ClipsCons(w, intervals, from, rest, restIdx);
      }
    }
  }

  /** Putting interval `i`'s slice in front of matching clips keeps them matching. */
  lemma ClipsCons<S>(w: seq<S>, intervals: seq<Interval>, i: nat, rest: seq<seq<S>>, restIdx: seq<nat>)
    requires i < |intervals| && |rest| == |restIdx|
    requires forall k :: 0 <= k < |restIdx| ==> restIdx[k] < |intervals|
    requires forall k :: 0 <= k < |restIdx| ==> rest[k] == Slice(w, intervals[restIdx[k]].start, intervals[restIdx[k]].stop)
    ensures var clips, idx := [Slice(w, intervals[i].start, intervals[i].stop)] + rest, [i] + restIdx;
      |clips| == |idx| &&
      forall k :: 0 <= k < |idx| ==>
        idx[k] < |intervals| && clips[k] == Slice(w, intervals[idx[k]].start, intervals[idx[k]].stop)
  {
    var clips, idx := [Slice(w, intervals[i].start, intervals[i].stop)] + rest, [i] + restIdx;
    forall k | 0 < k < |idx|
      ensures idx[k] < |intervals| && clips[k] == Slice(w, intervals[idx[k]].start, intervals[idx[k]].stop)
    {
      assert clips[k] == rest[k - 1] && idx[k] == restIdx[k - 1];
    }
  }

  /** `split_audio_on_silence`: clips of the original waveform, and the unchanged sample rate. */
  function SplitOnSilence<S>(w: seq<S>, sampleRate: nat, limits: Limits, removeNoise: bool,
                             denoise: (seq<S>, nat) -> seq<S>, detect: seq<S> -> seq<Interval>): (r: (seq<seq<S>>, nat))
    ensures r.1 == sampleRate
    ensures |r.0| <= |detect(DetectionBuffer(w, sampleRate, removeNoise, denoise))|
  {
    var intervals := detect(DetectionBuffer(w, sampleRate, removeNoise, denoise));
    (SelectClips(w, intervals, sampleRate, limits), sampleRate)
  }

  /**
   * Provenance, order and completeness: the k-th clip is the ORIGINAL waveform sliced
   * at the k-th kept interval of the detector's list, whichever buffer was searched.
   */
  lemma SplitOnSilenceSlicesOriginal<S>(w: seq<S>, sampleRate: nat, limits: Limits, removeNoise: bool,
                                        denoise: (seq<S>, nat) -> seq<S>, detect: seq<S> -> seq<Interval>)
    ensures var clips := SplitOnSilence(w, sampleRate, limits, removeNoise, denoise, detect).0;
      var intervals := detect(DetectionBuffer(w, sampleRate, removeNoise, denoise));
      var idx := KeptIndices(intervals, sampleRate, limits);
      |clips| == |idx| &&
      forall k :: 0 <= k < |idx| ==> clips[k] == Slice(w, intervals[idx[k]].start, intervals[idx[k]].stop)
  {
    var intervals := detect(DetectionBuffer(w, sampleRate, removeNoise, denoise));
    SelectClipsFrom(w, intervals, sampleRate, limits, 0);
    assert intervals[0..] == intervals;
  }

  /** Without limits there is exactly one clip per detected interval, in detector order. */
  lemma SplitOnSilenceUnlimited<S>(w: seq<S>, sampleRate: nat, removeNoise: bool,
                                   denoise: (seq<S>, nat) -> seq<S>, detect: seq<S> -> seq<Interval>)
    ensures var clips := SplitOnSilence(w, sampleRate, Unlimited, removeNoise, denoise, detect).0;
      var intervals := detect(DetectionBuffer(w, sampleRate, removeNoise, denoise));
      |clips| == |intervals| &&
      forall k :: 0 <= k < |intervals| ==> clips[k] == Slice(w, intervals[k].start, intervals[k].stop)
  {
    var intervals := detect(DetectionBuffer(w, sampleRate, removeNoise, denoise));
    SplitOnSilenceSlicesOriginal(w, sampleRate, Unlimited, removeNoise, denoise, detect);
    KeptAllFrom(intervals, sampleRate, 0);
  }

  /** Without limits the filter keeps every position from `from` on. */
  lemma {:induction false} KeptAllFrom(intervals: seq<Interval>, sampleRate: nat, from: nat)
    requires from <= |intervals|
    ensures var idx := KeptFrom(intervals, sampleRate, Unlimited, from);
      |idx| == |intervals| - from && forall k :: 0 <= k < |idx| ==> idx[k] == from + k
    decreases |intervals| - from
  {
    if from < |intervals| {
      KeptAllFrom(intervals, sampleRate, from + 1);
    }
  }

  /**
   * With a trustworthy detector and a length-preserving denoiser, every clip holds
   * exactly its interval's samples, and with limits its duration lies within them,
   * both bounds included.
   */
  lemma SplitOnSilenceDurations<S>(w: seq<S>, sampleRate: nat, lo: real, hi: real, removeNoise: bool,
                                   denoise: (seq<S>, nat) -> seq<S>, detect: seq<S> -> seq<Interval>)
    requires sampleRate > 0
    requires forall x, sr :: |denoise(x, sr)| == |x|
    requires forall x :: InBounds(detect(x), |x|)
    ensures var clips := SplitOnSilence(w, sampleRate, Within(lo, hi), removeNoise, denoise, detect).0;
      forall k :: 0 <= k < |clips| ==> lo <= |clips[k]| as real / sampleRate as real <= hi
  {
    var buffer := DetectionBuffer(w, sampleRate, removeNoise, denoise);
    assert |buffer| == |w| by {
      if removeNoise { assert buffer == denoise(w, sampleRate); }
    }
    var intervals := detect(buffer);
    assert InBounds(intervals, |w|);
    SelectedDurations(w, intervals, sampleRate, lo, hi);
    assert SplitOnSilence(w, sampleRate, Within(lo, hi), removeNoise, denoise, detect).0
        == SelectClips(w, intervals, sampleRate, Within(lo, hi));
  }

  /** With limits and a zero sample rate every interval is rejected, so no clip is returned. */
  lemma ZeroRateKeepsNothing<S>(w: seq<S>, lo: real, hi: real, removeNoise: bool,
                                denoise: (seq<S>, nat) -> seq<S>, detect: seq<S> -> seq<Interval>)
    ensures SplitOnSilence(w, 0, Within(lo, hi), removeNoise, denoise, detect).0 == []
  {
    var intervals := detect(DetectionBuffer(w, 0, removeNoise, denoise));
    SplitOnSilenceSlicesOriginal(w, 0, Within(lo, hi), removeNoise, denoise, detect);
    NothingKeptAtZeroRate(intervals, lo, hi, 0);
  }

  lemma {:induction false} NothingKeptAtZeroRate(intervals: seq<Interval>, lo: real, hi: real, from: nat)
    requires from <= |intervals|
    ensures KeptFrom(intervals, 0, Within(lo, hi), from) == []
    decreases |intervals| - from
  {
    if from < |intervals| {
      NothingKeptAtZeroRate(intervals, lo, hi, from + 1);
    }
  }

  lemma SelectedDurations<S>(w: seq<S>, intervals: seq<Interval>, sampleRate: nat, lo: real, hi: real)
    requires sampleRate > 0 && InBounds(intervals, |w|)
    ensures var clips := SelectClips(w, intervals, sampleRate, Within(lo, hi));
      forall k :: 0 <= k < |clips| ==> lo <= |clips[k]| as real / sampleRate as real <= hi
  {
    var limits := Within(lo, hi);
    var clips := SelectClips(w, intervals, sampleRate, limits);
    var idx := KeptIndices(intervals, sampleRate, limits);
    SelectClipsFrom(w, intervals, sampleRate, limits, 0);
    assert intervals[0..] == intervals;
    forall k | 0 <= k < |clips| ensures lo <= |clips[k]| as real / sampleRate as real <= hi {
      var iv := intervals[idx[k]];
      assert clips[k] == Slice(w, iv.start, iv.stop);
      ClipDuration(w, iv, sampleRate, lo, hi);
    }
  }

  /** The slice of an in-bounds interval that passes the limits lasts between them. */
  lemma ClipDuration<S>(w: seq<S>, iv: Interval, sampleRate: nat, lo: real, hi: real)
    requires sampleRate > 0 && iv.start <= iv.stop <= |w| && InLimits(iv, sampleRate, Within(lo, hi))
    ensures lo <= |Slice(w, iv.start, iv.stop)| as real / sampleRate as real <= hi
  {
    SliceLength(w, iv.start, iv.stop);
  }

  lemma SliceLength<S>(w: seq<S>, start: nat, stop: nat)
    requires start <= stop <= |w|
    ensures |Slice(w, start, stop)| == stop - start
    ensures Slice(w, start, stop) == w[start..stop]
  {
  }

  // ---------------------------------------------------------------------------
  // Splitting on time

  /** `int(duration * sample_rate)`: the product truncated toward zero. */
  function SegmentSize(duration: real, sampleRate: nat): (size: int)
    ensures var x := duration * sampleRate as real;
      (x >= 0.0 ==> size >= 0 && size as real <= x < size as real + 1.0)
      && (x < 0.0 ==> size <= 0 && size as real - 1.0 < x <= size as real)
  {
    var x := duration * sampleRate as real;
    if x >= 0.0 then x.Floor else -((-x).Floor)
  }

  /** The comprehension over `range(from, len(w), size)`: a window of `size` samples per step. */
  function Windows<S>(w: seq<S>, size: nat, from: nat): seq<seq<S>>
    requires size > 0
    decreases |w| - from
  {
    if from >= |w| then [] else [Slice(w, from, from + size)] + Windows(w, size, from + size)
  }

  function Concat<S>(clips: seq<seq<S>>): seq<S> {
    if clips == [] then [] else clips[0] + Concat(clips[1..])
  }

  /** The number of windows is the ceiling of the remaining length over the window size. */
  lemma {:induction false} WindowsCount<S>(w: seq<S>, size: nat, from: nat)
    requires size > 0 && from <= |w|
    ensures var n, rest := |Windows(w, size, from)|, |w| - from;
      (rest == 0 ==> n == 0) && (rest > 0 ==> (n - 1) * size < rest <= n * size)
    decreases |w| - from
  {
    if from < |w| && from + size < |w| {
      WindowsCount(w, size, from + size);
      var n' := |Windows(w, size, from + size)|;
      assert |Windows(w, size, from)| == n' + 1;
      CountStep(n', size, |w| - from);
    }
  }

  /** One more window covers `size` more samples. */
  lemma CountStep(n: nat, size: nat, rest: nat)
    requires size > 0 && rest > size && (n - 1) * size < rest - size <= n * size
    ensures (n + 1 - 1) * size < rest <= (n + 1) * size
  {
    MulSucc(n, size);
    assert n + 1 - 1 == n;
  }

  /** `(a + 1) * size` written out, so that the proofs below stay linear. */
  lemma MulSucc(a: nat, size: nat)
    ensures (a + 1) * size == a * size + size
  {
  }

  /** Multiplying by a window size preserves a strict order, with a whole window to spare. */
  lemma MulStep(a: nat, b: nat, size: nat)
    requires a < b
    ensures a * size + size <= b * size
  {
    MulSucc(a, size);
    MulMonotone(a + 1, b, size);
  }

  lemma MulMonotone(a: nat, b: nat, size: nat)
    requires a <= b
    ensures a * size <= b * size
  {
  }

  /** Where the `j`-th window from `from` starts: `j` whole windows further on. */
  function WindowStart(from: nat, size: nat, j: nat): nat
    decreases j
  {
    if j == 0 then from else WindowStart(from + size, size, j - 1)
  }

  lemma {:induction false} WindowStartIs(from: nat, size: nat, j: nat)
    ensures WindowStart(from, size, j) == from + j * size
    decreases j
  {
    if j > 0 {
      WindowStartIs(from + size, size, j - 1);
      MulSucc(j - 1, size);
    }
  }

  /** The j-th window is the slice that starts `j` whole windows after `from`. */
  lemma {:induction false} WindowAt<S>(w: seq<S>, size: nat, from: nat, j: nat)
    requires size > 0 && j < |Windows(w, size, from)|
    ensures var start := WindowStart(from, size, j);
      Windows(w, size, from)[j] == Slice(w, start, start + size)
    decreases j
  {
    if j == 0 {
      WindowsHead(w, size, from);
    } else {
      WindowsTail(w, size, from, j);
      WindowAt(w, size, from + size, j - 1);
      assert WindowStart(from, size, j) == WindowStart(from + size, size, j - 1);
    }
  }

  lemma WindowsHead<S>(w: seq<S>, size: nat, from: nat)
    requires size > 0 && 0 < |Windows(w, size, from)|
    ensures Windows(w, size, from)[0] == Slice(w, from, from + size)
  {
  }

  /** Past the first window, the windows from `from` are those from `from + size`. */
  lemma WindowsTail<S>(w: seq<S>, size: nat, from: nat, j: nat)
    requires size > 0 && 0 < j < |Windows(w, size, from)|
    ensures j - 1 < |Windows(w, size, from + size)|
    ensures Windows(w, size, from)[j] == Windows(w, size, from + size)[j - 1]
  {
  }

  /** Concatenating the windows gives back everything from `from` on. */
  lemma {:induction false} ConcatWindows<S>(w: seq<S>, size: nat, from: nat)
    requires size > 0 && from <= |w|
    ensures Concat(Windows(w, size, from)) == w[from..]
    decreases |w| - from
  {
    if from < |w| {
      var head := Slice(w, from, from + size);
      var rest := Windows(w, size, from + size);
      ConcatCons(head, rest);
      if from + size <= |w| {
        ConcatWindows(w, size, from + size);
        SliceLength(w, from, from + size);
        SplitSuffix(w, from, from + size);
      } else {
        assert rest == [];
        SliceToEnd(w, from, from + size);
      }
    }
  }

  lemma SplitSuffix<S>(w: seq<S>, from: nat, mid: nat)
    requires from <= mid <= |w|
    ensures w[from..] == w[from..mid] + w[mid..]
  {
  }

  /** A slice that runs past the end stops at the end. */
  lemma SliceToEnd<S>(w: seq<S>, from: nat, stop: nat)
    requires from <= |w| <= stop
    ensures Slice(w, from, stop) == w[from..]
  {
  }

  lemma ConcatCons<S>(head: seq<S>, rest: seq<seq<S>>)
    ensures Concat([head] + rest) == head + Concat(rest)
  {
    assert ([head] + rest)[1..] == rest;
  }

  /** Every window but the last is full; the last holds what remains of the buffer. */
  lemma {:induction false} WindowLength<S>(w: seq<S>, size: nat, k: nat)
    requires size > 0 && k < |Windows(w, size, 0)|
    ensures var n := |Windows(w, size, 0)|;
      |Windows(w, size, 0)[k]| == if k < n - 1 then size else |w| - (n - 1) * size
  {
    var n := |Windows(w, size, 0)|;
    WindowsCount(w, size, 0);
    WindowAt(w, size, 0, k);
    WindowStartIs(0, size, k);
    if k < n - 1 {
      MulStep(k, n - 1, size);
    } else {
      MulSucc(n - 1, size);
    }
  }

  /** The window count is `ceil(L / size)`, written with integer division. */
  lemma CountIsCeiling(len: nat, size: nat, n: nat)
    requires size > 0
    requires len == 0 ==> n == 0
    requires len > 0 ==> (n - 1) * size < len <= n * size
    ensures n == (len + size - 1) / size
  {
    var q := (len + size - 1) / size;
    var r := (len + size - 1) % size;
    assert len + size - 1 == q * size + r && 0 <= r < size;
    MulSucc(q, size);
    if len == 0 {
      assert q * size <= size - 1;
    } else {
      MulSucc(n - 1, size);
      MulSucc(n, size);
      if q < n {
        MulStep(q, n, size);
        assert false;
      } else if q > n {
        MulStep(n, q, size);
        assert false;
      }
    }
  }

  /**
   * `split_audio_on_time`; a window size of zero makes `range` raise ValueError,
   * and a negative one makes the range, and so the list of clips, empty.
   */
  function SplitOnTime<S>(w: seq<S>, sampleRate: nat, duration: real, trim: bool,
                          trimmer: seq<S> -> seq<S>): (r: Result<(seq<seq<S>>, nat)>)
    ensures r.Failure? <==> SegmentSize(duration, sampleRate) == 0
    ensures r.Failure? ==> r.error == ValueError
    ensures r.Success? ==> r.value.1 == sampleRate
    ensures r.Success? && SegmentSize(duration, sampleRate) < 0 ==> r.value.0 == []
    ensures r.Success? && SegmentSize(duration, sampleRate) > 0 ==>
      var buffer, size, clips := if trim then trimmer(w) else w, SegmentSize(duration, sampleRate), r.value.0;
      && Concat(clips) == buffer
      && (|buffer| == 0 ==> |clips| == 0)
      && (|buffer| > 0 ==> (|clips| - 1) * size < |buffer| <= |clips| * size)
      && (forall k :: 0 <= k < |clips| - 1 ==> |clips[k]| == size)
      && (|clips| > 0 ==> |clips[|clips| - 1]| == |buffer| - (|clips| - 1) * size)
      && |clips| == (|buffer| + size - 1) / size
  {
    var buffer := if trim then trimmer(w) else w;
    var size := SegmentSize(duration, sampleRate);
    if size == 0 then Failure(ValueError)
    else if size < 0 then Success(([], sampleRate))
    else
      WindowsSpec(buffer, size);
      Success((Windows(buffer, size, 0), sampleRate))
  }

  /** The windows over a whole buffer, gathered: the facts `SplitOnTime` promises. */
  lemma WindowsSpec<S>(buffer: seq<S>, size: nat)
    requires size > 0
    ensures var clips := Windows(buffer, size, 0);
      && Concat(clips) == buffer
      && (|buffer| == 0 ==> |clips| == 0)
      && (|buffer| > 0 ==> (|clips| - 1) * size < |buffer| <= |clips| * size)
      && (forall k :: 0 <= k < |clips| - 1 ==> |clips[k]| == size)
      && (|clips| > 0 ==> |clips[|clips| - 1]| == |buffer| - (|clips| - 1) * size)
      && |clips| == (|buffer| + size - 1) / size
  {
    var clips := Windows(buffer, size, 0);
    ConcatWindows(buffer, size, 0);
    assert buffer[0..] == buffer;
    WindowsCount(buffer, size, 0);
    forall k | 0 <= k < |clips| - 1 ensures |clips[k]| == size {
      WindowLength(buffer, size, k);
    }
    if |clips| > 0 {
      WindowLength(buffer, size, |clips| - 1);
    }
    CountIsCeiling(|buffer|, size, |clips|);
  }


  // ---------------------------------------------------------------------------
  // The scenario of the test suite: nine seconds at 22050 Hz, shaped
  // silence(1 s) + tone(1 s) + silence(2 s) + tone(2 s) + silence(3 s).

  /** With the tones detected exactly, no limits give two clips and `[0.5, 1.5]` gives one. */
  lemma NineSecondsOnSilence<S>(w: seq<S>, denoise: (seq<S>, nat) -> seq<S>, detect: seq<S> -> seq<Interval>)
    requires |w| == 9 * 22050
    requires detect(w) == [Interval(22050, 44100), Interval(88200, 132300)]
    ensures var r := SplitOnSilence(w, 22050, Unlimited, false, denoise, detect);
      r.1 == 22050 && |r.0| == 2 && r.0[0] == w[22050..44100] && r.0[1] == w[88200..132300]
    ensures var r := SplitOnSilence(w, 22050, Within(0.5, 1.5), false, denoise, detect);
      r.1 == 22050 && r.0 == [w[22050..44100]]
  {
    var ivs := detect(w);
    assert DetectionBuffer(w, 22050, false, denoise) == w;
    SliceLength(w, 22050, 44100);
    SliceLength(w, 88200, 132300);
    SplitOnSilenceUnlimited(w, 22050, false, denoise, detect);
    assert ivs[1..][1..] == [];
    assert InLimits(ivs[0], 22050, Within(0.5, 1.5));
    assert !InLimits(ivs[1], 22050, Within(0.5, 1.5));
    assert SelectClips(w, ivs[1..], 22050, Within(0.5, 1.5)) == [];
  }

  /** One-second windows give nine full clips; two-second windows give five, the last one second long. */
  lemma NineSecondsOnTime<S>(w: seq<S>, trimmer: seq<S> -> seq<S>)
    requires |w| == 9 * 22050
    ensures var r := SplitOnTime(w, 22050, 1.0, false, trimmer);
      r.Success? && r.value.1 == 22050 && |r.value.0| == 9 &&
      forall k :: 0 <= k < 9 ==> |r.value.0[k]| == 22050
    ensures var r := SplitOnTime(w, 22050, 2.0, false, trimmer);
      r.Success? && r.value.1 == 22050 && |r.value.0| == 5 &&
      (forall k :: 0 <= k < 4 ==> |r.value.0[k]| == 44100) && |r.value.0[4]| == 22050
  {
    assert SegmentSize(1.0, 22050) == 22050;
    var one := SplitOnTime(w, 22050, 1.0, false, trimmer).value.0;
    assert |one| == (9 * 22050 + 22050 - 1) / 22050 == 9;
    assert |one[8]| == 9 * 22050 - 8 * 22050;
    assert SegmentSize(2.0, 22050) == 44100;
    var two := SplitOnTime(w, 22050, 2.0, false, trimmer).value.0;
    assert |two| == (9 * 22050 + 44100 - 1) / 44100 == 5;
    assert |two[4]| == 9 * 22050 - 4 * 44100;
  }
}
