/** The capture agent's linear resampler, src/audio_resampler.cc, over real arithmetic. */
module AudioResampler {
  function Ceil(x: real): int { -(-x).Floor }

  function Max(a: real, b: real): real { if a >= b then a else b }

  // ---------------------------------------------------------------------------------------------------------
  // How many frames a block yields and what phase it leaves
  // ---------------------------------------------------------------------------------------------------------

  /** The number of output frames of a block of `n` input frames entered at `phase`. */
  function Count(phase: real, n: nat, step: real): (k: nat)
    requires step > 0.0
  {
    var last := n as real - 1.0;
    if phase >= last then 0
    else
      assert (last - phase) / step > 0.0;
      Ceil((last - phase) / step)
  }

  /** Where in the input block output frame `k` falls; with `k` the count, where the block is left. */
  function Position(phase: real, k: nat, step: real): real { phase + k as real * step }

  /** The phase carried to the next block. */
  function Carry(phase: real, n: nat, step: real): real
    requires step > 0.0
  {
    Max(0.0, Position(phase, Count(phase, n, step), step) - n as real)
  }

  lemma DivideBy(x: real, step: real, k: int)
    requires step > 0.0
    ensures k as real >= x / step <==> k as real * step >= x
  {
    var q, r := x / step, k as real;
    assert q * step == x;
    if r >= q { MulMono(q, r, step); } else { MulStrict(r, q, step); }
  }

  lemma MulMono(a: real, b: real, c: real)
    requires a <= b && c >= 0.0
    ensures a * c <= b * c
  {
  }

  lemma MulStrict(a: real, b: real, c: real)
    requires a < b && c > 0.0
    ensures a * c < b * c
  {
  }

  /** The count is the number of positions before the last input frame: the loop ends exactly there. */
  lemma CountIsExact(phase: real, n: nat, step: real, k: nat)
    requires step > 0.0
    ensures k == Count(phase, n, step) <==>
              Position(phase, k, step) >= n as real - 1.0
              && (k > 0 ==> Position(phase, k - 1, step) < n as real - 1.0)
  {
    var x := n as real - 1.0 - phase;
    DivideBy(x, step, k);
    DivideBy(x, step, k - 1);
    if x > 0.0 {
      var c := Ceil(x / step);
      assert c as real >= x / step > c as real - 1.0;
    } else {
      MulMono(0.0, k as real, step);
      if k > 0 { MulMono(0.0, (k - 1) as real, step); }
    }
  }

  /** MaxOutputFrames: the bound a caller sizes its buffer by, with two frames to spare. */
  function MaxOutputFrames(n: nat, ratio: real): int { Ceil(n as real * ratio) + 2 }

  lemma CountFitsBuffer(phase: real, n: nat, ratio: real)
    requires ratio > 0.0 && phase >= 0.0
    ensures Count(phase, n, 1.0 / ratio) + 2 <= MaxOutputFrames(n, ratio)
  {
    var step := 1.0 / ratio;
    var k := Count(phase, n, step);
    CountIsExact(phase, n, step, k);
    if k > 0 {
      assert (k - 1) as real * step < n as real;
      MulStrict((k - 1) as real * step, n as real, ratio);
      assert (k - 1) as real * step * ratio == (k - 1) as real by { assert step * ratio == 1.0; }
    } else {
      MulMono(0.0, n as real, ratio);
    }
  }

  /** The carried phase stays between zero and one step less one input frame. */
  lemma CarryBounded(phase: real, n: nat, step: real)
    requires step > 0.0 && n > 0 && 0.0 <= phase <= Max(0.0, step - 1.0)
    ensures 0.0 <= Carry(phase, n, step) <= Max(0.0, step - 1.0)
  {
    var k := Count(phase, n, step);
    CountIsExact(phase, n, step, k);
    if k > 0 { assert Position(phase, k, step) == Position(phase, k - 1, step) + step; }
  }

  /** The phase after a sequence of blocks of the given lengths. */
  function CarryAll(ns: seq<nat>, step: real): real
    requires step > 0.0
  {
    if ns == [] then 0.0
    else
      var f := CarryAll(ns[..|ns| - 1], step);
      if ns[|ns| - 1] == 0 then f else Carry(f, ns[|ns| - 1], step)
  }

  lemma {:induction false} PhaseAlwaysBounded(ns: seq<nat>, step: real)
    requires step > 0.0
    ensures 0.0 <= CarryAll(ns, step) <= Max(0.0, step - 1.0)
  {
    if ns != [] {
      PhaseAlwaysBounded(ns[..|ns| - 1], step);
      if ns[|ns| - 1] != 0 { CarryBounded(CarryAll(ns[..|ns| - 1], step), ns[|ns| - 1], step); }
    }
  }

  /** The next block continues where this one stopped. */
  ghost predicate PhaseContinuous(phase: real, n: nat, step: real)
    requires step > 0.0
  {
    n as real + Carry(phase, n, step) == Position(phase, Count(phase, n, step), step)
  }

  /** Contrary to the source's comment, phase continuity is not kept in general: it is exactly when the loop stops
      past the whole block, and not on its last input frame. */
  lemma PhaseContinuousIff(phase: real, n: nat, step: real)
    requires step > 0.0
    ensures PhaseContinuous(phase, n, step) <==> Position(phase, Count(phase, n, step), step) >= n as real
  {
  }

  /** In particular never when the rate is raised: every block then restarts at phase zero. */
  lemma UpsamplingRestartsEveryBlock(ns: seq<nat>, n: nat, step: real)
    requires 0.0 < step < 1.0 && n > 0
    ensures CarryAll(ns, step) == 0.0 && !PhaseContinuous(CarryAll(ns, step), n, step)
  {
    PhaseAlwaysBounded(ns, step);
    var k := Count(0.0, n, step);
    CountIsExact(0.0, n, step, k);
    if k > 0 { assert Position(0.0, k, step) == Position(0.0, k - 1, step) + step; }
  }

  // ---------------------------------------------------------------------------------------------------------
  // The samples
  // ---------------------------------------------------------------------------------------------------------

  function Sum(input: seq<real>, base: nat, c: nat): real
    requires base + c <= |input|
  {
    if c == 0 then 0.0 else Sum(input, base, c - 1) + input[base + c - 1]
  }

  lemma Index(i: nat, n: nat, c: nat, ch: nat)
    requires i < n && ch < c
    ensures i * c + ch < n * c && (i + 1) * c <= n * c && i * c + c == (i + 1) * c
  {
    var d := n - i - 1;
    assert n * c == i * c + c + d * c;
  }

  /** The average of `c` channels with the given sum. */
  function Mean(sum: real, c: nat): real
    requires c > 0
  {
    sum * (1.0 / c as real)
  }

  /** The down-mixed block: one averaged sample per frame. */
  function DownMixed(input: seq<real>, n: nat, c: nat): (mono: seq<real>)
    requires c > 0 && |input| >= n * c
    ensures |mono| == n
  {
    if n == 0 then []
    else
      Index(n - 1, n, c, 0);
      DownMixed(input, n - 1, c) + [Mean(Sum(input, (n - 1) * c, c), c)]
  }

  lemma DownMixedStep(input: seq<real>, i: nat, c: nat)
    requires c > 0 && |input| >= (i + 1) * c
    ensures i * c + c == (i + 1) * c
    ensures DownMixed(input, i + 1, c) == DownMixed(input, i, c) + [Mean(Sum(input, i * c, c), c)]
  {
    Index(i, i + 1, c, 0);
    var all := DownMixed(input, i + 1, c);
    assert all[..i] == DownMixed(input, i, c);
    assert all[i] == Mean(Sum(input, i * c, c), c);
    assert all == all[..i] + [all[i]];
  }

  /** The sample of an output channel at an input frame: channels the input lacks repeat its first. */
  function SampleAt(input: seq<real>, n: nat, c: nat, i: nat, ch: nat): real
    requires c > 0 && |input| >= n * c && i < n
  {
    Index(i, n, c, if ch < c then ch else 0);
    input[i * c + (if ch < c then ch else 0)]
  }

  /** The value at a position between two input frames. */
  function Interpolated(input: seq<real>, n: nat, c: nat, pos: real, ch: nat): real
    requires c > 0 && |input| >= n * c && 0.0 <= pos && pos.Floor + 1 < n
  {
    var i := pos.Floor;
    var s0, s1 := SampleAt(input, n, c, i, ch), SampleAt(input, n, c, i + 1, ch);
    s0 + (pos - i as real) * (s1 - s0)
  }

  ghost predicate Within(samples: seq<real>, lo: real, hi: real) {
    forall i :: 0 <= i < |samples| ==> lo <= samples[i] <= hi
  }

  lemma InterpolatedWithin(input: seq<real>, n: nat, c: nat, pos: real, ch: nat, lo: real, hi: real)
    requires c > 0 && |input| >= n * c && 0.0 <= pos && pos.Floor + 1 < n
    requires Within(input, lo, hi)
    ensures lo <= Interpolated(input, n, c, pos, ch) <= hi
  {
    var i := pos.Floor;
    var s0, s1, t := SampleAt(input, n, c, i, ch), SampleAt(input, n, c, i + 1, ch), pos - i as real;
    assert lo <= s0 <= hi && lo <= s1 <= hi by {
      Index(i, n, c, if ch < c then ch else 0);
      Index(i + 1, n, c, if ch < c then ch else 0);
    }
    Convex(s0, s1, t, lo, hi);
  }

  lemma Convex(s0: real, s1: real, t: real, lo: real, hi: real)
    requires 0.0 <= t <= 1.0 && lo <= s0 <= hi && lo <= s1 <= hi
    ensures lo <= s0 + t * (s1 - s0) <= hi
  {
    Weighted(s0, s1, 1.0 - t, t, lo, hi);
    assert s0 + t * (s1 - s0) == (1.0 - t) * s0 + t * s1;
  }

  lemma Weighted(s0: real, s1: real, u: real, t: real, lo: real, hi: real)
    requires 0.0 <= t && 0.0 <= u && u + t == 1.0 && lo <= s0 <= hi && lo <= s1 <= hi
    ensures lo <= u * s0 + t * s1 <= hi
  {
    WeightedFrom(s0, s1, u, t, lo);
    WeightedFrom(-s0, -s1, u, t, -hi);
    assert u * -s0 == -(u * s0) && t * -s1 == -(t * s1);
  }

  lemma WeightedFrom(s0: real, s1: real, u: real, t: real, lo: real)
    requires 0.0 <= t && 0.0 <= u && u + t == 1.0 && lo <= s0 && lo <= s1
    ensures lo <= u * s0 + t * s1
  {
    var a, b := s0 - lo, s1 - lo;
    assert u * a >= 0.0 && t * b >= 0.0;
    assert u * s0 == u * a + u * lo;
    assert t * s1 == t * b + t * lo;
    assert u * lo + t * lo == (u + t) * lo;
  }

  lemma {:induction false} SumWithin(input: seq<real>, base: nat, c: nat, lo: real, hi: real)
    requires base + c <= |input| && Within(input, lo, hi)
    ensures c as real * lo <= Sum(input, base, c) <= c as real * hi
  {
    if c > 0 {
      SumWithin(input, base, c - 1, lo, hi);
      assert c as real == (c - 1) as real + 1.0;
      assert c as real * lo == (c - 1) as real * lo + lo;
      assert c as real * hi == (c - 1) as real * hi + hi;
    }
  }

  lemma MeanWithin(input: seq<real>, base: nat, c: nat, lo: real, hi: real)
    requires c > 0 && base + c <= |input| && Within(input, lo, hi)
    ensures lo <= Mean(Sum(input, base, c), c) <= hi
  {
    SumWithin(input, base, c, lo, hi);
    Average(Sum(input, base, c), c as real, lo, hi);
  }

  /** Down-mixing stays within the range of its input. */
  lemma {:induction false} DownMixedWithin(input: seq<real>, n: nat, c: nat, lo: real, hi: real)
    requires c > 0 && |input| >= n * c && Within(input, lo, hi)
    ensures Within(DownMixed(input, n, c), lo, hi)
  {
    if n > 0 {
      DownMixedStep(input, n - 1, c);
      DownMixedWithin(input, n - 1, c, lo, hi);
      MeanWithin(input, (n - 1) * c, c, lo, hi);
      WithinSnoc(DownMixed(input, n - 1, c), Mean(Sum(input, (n - 1) * c, c), c), lo, hi);
    }
  }

  lemma WithinSnoc(samples: seq<real>, x: real, lo: real, hi: real)
    requires Within(samples, lo, hi) && lo <= x <= hi
    ensures Within(samples + [x], lo, hi)
  {
  }

  lemma Average(sum: real, c: real, lo: real, hi: real)
    requires c > 0.0 && c * lo <= sum <= c * hi
    ensures lo <= sum * (1.0 / c) <= hi
  {
    var inv := 1.0 / c;
    assert c * inv == 1.0;
    MulMono(c * lo, sum, inv);
    MulMono(sum, c * hi, inv);
    assert c * lo * inv == lo && c * hi * inv == hi;
  }

  // ---------------------------------------------------------------------------------------------------------
  // The imperative code
  // ---------------------------------------------------------------------------------------------------------

  /** Output frame `k` of a block, one interpolated sample per channel. */
  function Frame(input: seq<real>, n: nat, c: nat, pos: real, channels: nat): (f: seq<real>)
    requires c > 0 && |input| >= n * c && 0.0 <= pos && pos.Floor + 1 < n
    ensures |f| == channels
  {
    seq(channels, ch requires 0 <= ch < channels => Interpolated(input, n, c, pos, ch))
  }

  /** The first `k` output frames of a block, interleaved. */
  function Frames(input: seq<real>, n: nat, c: nat, phase: real, step: real, channels: nat, k: nat): (r: seq<real>)
    requires c > 0 && |input| >= n * c && phase >= 0.0 && step > 0.0
    requires k <= Count(phase, n, step)
    ensures |r| == k * channels
  {
    if k == 0 then []
    else
      FrameInBlock(phase, n, step, k - 1);
      Index(k - 1, k, channels + 1, 0);
      Frames(input, n, c, phase, step, channels, k - 1) + Frame(input, n, c, Position(phase, k - 1, step), channels)
  }

  lemma LastPosition(phase: real, n: nat, step: real)
    requires step > 0.0 && Count(phase, n, step) > 0
    ensures Position(phase, Count(phase, n, step) - 1, step) < n as real - 1.0
  {
    CountIsExact(phase, n, step, Count(phase, n, step));
  }

  lemma PositionMono(phase: real, k: nat, l: nat, step: real)
    requires k <= l && step > 0.0
    ensures Position(phase, k, step) <= Position(phase, l, step)
  {
    MulMono(k as real, l as real, step);
  }

  /** Every output frame of a block lies between two of its input frames. */
  lemma FrameInBlock(phase: real, n: nat, step: real, k: nat)
    requires phase >= 0.0 && step > 0.0 && k < Count(phase, n, step)
    ensures 0.0 <= Position(phase, k, step) && Position(phase, k, step).Floor + 1 < n
  {
    LastPosition(phase, n, step);
    PositionMono(phase, k, Count(phase, n, step) - 1, step);
    PositionMono(phase, 0, k, step);
    FloorBelow(Position(phase, k, step), n);
  }

  lemma FloorBelow(pos: real, n: nat)
    requires pos < n as real - 1.0
    ensures pos.Floor + 1 < n
  {
    assert pos.Floor as real <= pos;
  }

  lemma {:induction false} FramesWithin(input: seq<real>, n: nat, c: nat, phase: real, step: real, channels: nat,
      k: nat, lo: real, hi: real)
    requires c > 0 && |input| >= n * c && phase >= 0.0 && step > 0.0 && k <= Count(phase, n, step)
    requires Within(input, lo, hi)
    ensures Within(Frames(input, n, c, phase, step, channels, k), lo, hi)
  {
    if k > 0 {
      FramesWithin(input, n, c, phase, step, channels, k - 1, lo, hi);
      FrameInBlock(phase, n, step, k - 1);
      var pos := Position(phase, k - 1, step);
      forall ch | 0 <= ch < channels ensures lo <= Frame(input, n, c, pos, channels)[ch] <= hi {
        InterpolatedWithin(input, n, c, pos, ch, lo, hi);
      }
    }
  }

  /** The block as it is resampled: down-mixed when one channel is made of several, and its channel count. */
  function Prepared(input: seq<real>, n: nat, srcChannels: nat, dstChannels: nat): (r: (seq<real>, nat))
    requires srcChannels > 0 && |input| >= n * srcChannels
    ensures r.1 > 0 && |r.0| >= n * r.1
  {
    if dstChannels == 1 && srcChannels > 1 then (DownMixed(input, n, srcChannels), 1) else (input, srcChannels)
  }

  /** Input frame `i` with the output's channels. */
  function PlainFrame(input: seq<real>, n: nat, c: nat, i: nat, channels: nat): (f: seq<real>)
    requires c > 0 && |input| >= n * c && i < n
    ensures |f| == channels
  {
    seq(channels, ch requires 0 <= ch < channels => SampleAt(input, n, c, i, ch))
  }

  /** The interleaved copy of a block whose rate does not change. */
  function Copied(input: seq<real>, n: nat, c: nat, channels: nat, k: nat): (r: seq<real>)
    requires c > 0 && |input| >= n * c && k <= n
    ensures |r| == k * channels
  {
    if k == 0 then []
    else
      Index(k - 1, k, channels + 1, 0);
      Copied(input, n, c, channels, k - 1) + PlainFrame(input, n, c, k - 1, channels)
  }

  lemma CopiedNext(input: seq<real>, n: nat, c: nat, channels: nat, i: nat)
    requires c > 0 && |input| >= n * c && i < n
    ensures Copied(input, n, c, channels, i + 1)
         == Copied(input, n, c, channels, i) + PlainFrame(input, n, c, i, channels)
    ensures |Copied(input, n, c, channels, i)| + channels <= n * channels
  {
    NextFrame(i, n, channels);
  }

  lemma OneMore(before: seq<real>, frame: seq<real>, i: nat)
    requires i < |frame|
    ensures before + frame[..i] + [frame[i]] == before + frame[..i + 1]
  {
  }

  class Resampler {
    var initialized: bool
    var srcRate: int
    var srcChannels: int
    var dstRate: int
    var dstChannels: int
    var ratio: real
    var phase: real

    ghost predicate Valid()
      reads this
    {
      initialized ==>
        && srcRate > 0 && dstRate > 0 && srcChannels > 0 && dstChannels > 0
        && ratio == dstRate as real / srcRate as real && ratio > 0.0
        && 0.0 <= phase <= Max(0.0, 1.0 / ratio - 1.0)
    }

    constructor ()
      ensures Valid() && !initialized
    {
      initialized, srcRate, srcChannels, dstRate, dstChannels, ratio, phase := false, 0, 0, 0, 0, 1.0, 0.0;
    }

    method InitRates(srcRate: int, srcChannels: int, dstRate: int, dstChannels: int) returns (ok: bool)
      requires Valid()
      modifies this
      ensures Valid()
      ensures ok == (srcRate > 0 && dstRate > 0 && srcChannels > 0 && dstChannels > 0)
      ensures ok ==> initialized && phase == 0.0 && this.srcRate == srcRate && this.dstRate == dstRate
                     && this.srcChannels == srcChannels && this.dstChannels == dstChannels
    {
      if srcRate <= 0 || dstRate <= 0 || srcChannels <= 0 || dstChannels <= 0 {
        return false;
      }
      this.srcRate, this.srcChannels, this.dstRate, this.dstChannels := srcRate, srcChannels, dstRate, dstChannels;
      ratio := dstRate as real / srcRate as real;
      phase := 0.0;
      initialized := true;
      return true;
    }

    /** The down-mixing loops. */
    method DownMix(input: seq<real>, n: nat, c: nat) returns (mono: seq<real>)
      requires c > 0 && |input| >= n * c
      ensures mono == DownMixed(input, n, c)
    {
      mono := [];
      for i := 0 to n
        invariant i * c <= n * c
        invariant mono == DownMixed(input, i, c)
      {
        NextFrame(i, n, c);
        var sum := AddChannels(input, i * c, c);
        var sample := MeanOf(sum, c);
        DownMixedStep(input, i, c);
        mono := mono + [sample];
      }
    }

    method MeanOf(sum: real, c: nat) returns (mean: real)
      requires c > 0
      ensures mean == Mean(sum, c)
    {
      var inv := 1.0 / c as real;
      mean := sum * inv;
    }

    method AddChannels(input: seq<real>, base: nat, c: nat) returns (sum: real)
      requires base + c <= |input|
      ensures sum == Sum(input, base, c)
    {
      sum := 0.0;
      for ch := 0 to c
        invariant sum == Sum(input, base, ch)
      {
        sum := sum + input[base + ch];
      }
    }

    /** The body of the inner loop: one interpolated sample. */
    method Sample(input: seq<real>, n: nat, c: nat, pos: real, ch: nat) returns (sample: real)
      requires c > 0 && |input| >= n * c && 0.0 <= pos && pos.Floor + 1 < n
      ensures sample == Interpolated(input, n, c, pos, ch)
    {
      var idx0 := pos.Floor;
      var frac := pos - idx0 as real;
      var idx1 := idx0 + 1;
      var srcCh := if ch < c then ch else 0;
      Index(idx0, n, c, srcCh);
      Index(idx1, n, c, srcCh);
      var s0, s1 := input[idx0 * c + srcCh], input[idx1 * c + srcCh];
      sample := s0 + frac * (s1 - s0);
    }

    method Store(out: array<real>, at: nat, sample: real)
      requires at < out.Length
      modifies out
      ensures out[..at + 1] == old(out[..at]) + [sample]
    {
      out[at] := sample;
      assert out[..at] == old(out[..at]);
    }

    /** The inner loop: one output frame at index `base`. */
    method WriteFrame(input: seq<real>, n: nat, c: nat, pos: real, out: array<real>, base: nat)
      requires c > 0 && |input| >= n * c && 0.0 <= pos && pos.Floor + 1 < n
      requires dstChannels >= 0 && base + dstChannels <= out.Length
      modifies out
      ensures out[..base + dstChannels] == old(out[..base]) + Frame(input, n, c, pos, dstChannels)
    {
      ghost var before, frame := out[..base], Frame(input, n, c, pos, dstChannels);
      assert before + frame[..0] == before;
      for ch := 0 to dstChannels
        invariant out[..base + ch] == before + frame[..ch]
      {
        var sample := Sample(input, n, c, pos, ch);
        Store(out, base + ch, sample);
        OneMore(before, frame, ch);
      }
      assert frame[..dstChannels] == frame;
    }

    /** The interpolation loop: it ends after exactly the counted frames. */
    method Interpolate(input: seq<real>, n: nat, c: nat, step: real, out: array<real>) returns (k: nat)
      requires c > 0 && |input| >= n * c && n > 0 && step > 0.0 && phase >= 0.0 && dstChannels >= 0
      requires Count(phase, n, step) * dstChannels <= out.Length
      modifies this`phase, out
      ensures k == Count(old(phase), n, step) && k * dstChannels <= out.Length
      ensures out[..k * dstChannels] == Frames(input, n, c, old(phase), step, dstChannels, k)
      ensures phase == Carry(old(phase), n, step)
    {
      var pos := phase;
      ghost var last := Count(phase, n, step);
      CountIsExact(phase, n, step, last);
      k := 0;
      while true
        invariant k <= last && phase == old(phase) && pos == Position(phase, k, step)
        invariant k * dstChannels <= last * dstChannels
        invariant out[..k * dstChannels] == Frames(input, n, c, phase, step, dstChannels, k)
        decreases last - k
      {
        if k < last { FrameInBlock(phase, n, step, k); }
        var idx0 := pos.Floor;
        if idx0 >= n - 1 {
          break;
        }
        Index(k, last, dstChannels + 1, 0);
        NextFrame(k, last, dstChannels);
        WriteFrame(input, n, c, pos, out, k * dstChannels);
        NextPosition(phase, k, step);
        k := k + 1;
        pos := pos + step;
      }
      phase := pos - n as real;
      if phase < 0.0 {
        phase := 0.0;
      }
    }

    /** The copy loops of a block whose rate does not change. */
    method Copy(input: seq<real>, n: nat, c: nat, out: array<real>)
      requires c > 0 && |input| >= n * c && dstChannels >= 0 && n * dstChannels <= out.Length
      modifies out
      ensures out[..n * dstChannels] == Copied(input, n, c, dstChannels, n)
    {
      var base := 0;
      for i := 0 to n
        invariant base == |Copied(input, n, c, dstChannels, i)| && base <= out.Length
        invariant out[..base] == Copied(input, n, c, dstChannels, i)
      {
        CopiedNext(input, n, c, dstChannels, i);
        CopyFrame(input, n, c, i, out, base);
        base := base + dstChannels;
      }
    }

    method CopyFrame(input: seq<real>, n: nat, c: nat, i: nat, out: array<real>, base: nat)
      requires c > 0 && |input| >= n * c && i < n && dstChannels >= 0 && base + dstChannels <= out.Length
      modifies out
      ensures out[..base + dstChannels] ==
              old(out[..base]) + PlainFrame(input, n, c, i, dstChannels)
    {
      for ch := 0 to dstChannels
        invariant out[..base] == old(out[..base])
        invariant forall k :: 0 <= k < ch ==> out[base + k] == SampleAt(input, n, c, i, k)
      {
        var srcCh := if ch < c then ch else 0;
        Index(i, n, c, srcCh);
        out[base + ch] := input[i * c + srcCh];
      }
    }

    /** The second step: copy the prepared block, or interpolate it. */
    method Resample(block: seq<real>, n: nat, c: nat, step: real, out: array<real>) returns (outFrames: nat)
      requires c > 0 && |block| >= n * c && n > 0 && step > 0.0 && phase >= 0.0 && dstChannels >= 0
      requires (if srcRate == dstRate then n else Count(phase, n, step)) * dstChannels <= out.Length
      modifies this`phase, out
      ensures outFrames * dstChannels <= out.Length
      ensures if srcRate == dstRate then
                outFrames == n && phase == old(phase)
                && out[..outFrames * dstChannels] == Copied(block, n, c, dstChannels, n)
              else
                outFrames == Count(old(phase), n, step) && phase == Carry(old(phase), n, step)
                && out[..outFrames * dstChannels] == Frames(block, n, c, old(phase), step, dstChannels, outFrames)
    {
      if srcRate == dstRate {
        Copy(block, n, c, out);
        return n;
      }
      outFrames := Interpolate(block, n, c, step, out);
    }

    /** Reads only the block, writes only whole frames at the front of the buffer and never more than
        MaxOutputFrames of them, and they are the interpolated frames of the (down-mixed) block. */
    method Process(input: seq<real>, inFrames: int, out: array<real>) returns (outFrames: nat)
      requires Valid()
      requires initialized && inFrames > 0 ==>
                 |input| >= inFrames * srcChannels && out.Length >= MaxOutputFrames(inFrames, ratio) * dstChannels
      modifies this`phase, out
      ensures Valid()
      ensures !initialized || inFrames <= 0 ==> outFrames == 0 && phase == old(phase)
      ensures initialized && inFrames > 0 ==>
                var (block, c) := Prepared(input, inFrames, srcChannels, dstChannels);
                && outFrames <= MaxOutputFrames(inFrames, ratio) && outFrames * dstChannels <= out.Length
                && (if srcRate == dstRate then
                      outFrames == inFrames && phase == old(phase)
                      && out[..outFrames * dstChannels] == Copied(block, inFrames, c, dstChannels, inFrames)
                    else
                      outFrames == Count(old(phase), inFrames, 1.0 / ratio)
                      && phase == Carry(old(phase), inFrames, 1.0 / ratio)
                      && out[..outFrames * dstChannels] ==
                         Frames(block, inFrames, c, old(phase), 1.0 / ratio, dstChannels, outFrames))
    {
      if !initialized || inFrames <= 0 {
        return 0;
      }
      var block, c := input, srcChannels;
      if dstChannels == 1 && srcChannels > 1 {
        block := DownMix(input, inFrames, srcChannels);
        c := 1;
      }
      if srcRate == dstRate {
        SameRateFits(inFrames, ratio, srcRate, dstChannels);
      } else {
        FramesFit(phase, inFrames, ratio, dstChannels);
        CarryBounded(phase, inFrames, 1.0 / ratio);
      }
      outFrames := Resample(block, inFrames, c, 1.0 / ratio, out);
    }
  }

  lemma SelfRatio(r: real)
    requires r > 0.0
    ensures r / r == 1.0
  {
  }

  lemma SameRateFits(n: nat, ratio: real, rate: int, channels: nat)
    requires rate > 0 && ratio == rate as real / rate as real
    ensures n <= MaxOutputFrames(n, ratio) && n * channels <= MaxOutputFrames(n, ratio) * channels
  {
    SelfRatio(rate as real);
    FitsScaled(n, MaxOutputFrames(n, ratio), channels);
  }

  lemma FramesFit(phase: real, n: nat, ratio: real, channels: nat)
    requires ratio > 0.0 && phase >= 0.0
    ensures
      var k := Count(phase, n, 1.0 / ratio);
      k <= MaxOutputFrames(n, ratio) && k * channels <= MaxOutputFrames(n, ratio) * channels
  {
    CountFitsBuffer(phase, n, ratio);
    FitsScaled(Count(phase, n, 1.0 / ratio), MaxOutputFrames(n, ratio), channels);
  }

  lemma FitsScaled(k: nat, bound: int, channels: nat)
    requires k <= bound
    ensures k * channels <= bound * channels
  {
    var d := bound - k;
    assert bound * channels == k * channels + d * channels;
  }

  lemma {:induction false} CopiedWithin(input: seq<real>, n: nat, c: nat, channels: nat, k: nat, lo: real, hi: real)
    requires c > 0 && |input| >= n * c && k <= n && Within(input, lo, hi)
    ensures Within(Copied(input, n, c, channels, k), lo, hi)
  {
    if k > 0 {
      CopiedWithin(input, n, c, channels, k - 1, lo, hi);
      var frame := PlainFrame(input, n, c, k - 1, channels);
      forall ch | 0 <= ch < |frame| ensures lo <= frame[ch] <= hi {
        Index(k - 1, n, c, if ch < c then ch else 0);
      }
    }
  }

  /** Whatever Process writes stays within the range of the block it was given. */
  lemma OutputWithinInput(input: seq<real>, n: nat, srcChannels: nat, dstChannels: nat, phase: real, step: real,
      lo: real, hi: real)
    requires srcChannels > 0 && |input| >= n * srcChannels && phase >= 0.0 && step > 0.0 && Within(input, lo, hi)
    ensures
      var (block, c) := Prepared(input, n, srcChannels, dstChannels);
      && Within(Frames(block, n, c, phase, step, dstChannels, Count(phase, n, step)), lo, hi)
      && Within(Copied(block, n, c, dstChannels, n), lo, hi)
  {
    var (block, c) := Prepared(input, n, srcChannels, dstChannels);
    if dstChannels == 1 && srcChannels > 1 { DownMixedWithin(input, n, srcChannels, lo, hi); }
    FramesWithin(block, n, c, phase, step, dstChannels, Count(phase, n, step), lo, hi);
    CopiedWithin(block, n, c, dstChannels, n, lo, hi);
  }

  // ---------------------------------------------------------------------------------------------------------
  // What the frames are: linear signals come out exact, and down-mixing weighs all channels alike
  // ---------------------------------------------------------------------------------------------------------

  /** Channel `ch` of the interleaved input is the straight line with slope `a` through `b` at frame zero. */
  ghost predicate Linear(input: seq<real>, n: nat, c: nat, ch: nat, a: real, b: real)
    requires c > 0 && |input| >= n * c
  {
    forall i: nat, at: nat :: i < n && At(i, c, ch, at) && at < |input| ==> input[at] == a * i as real + b
  }

  /** The interleaved place of channel `ch` of frame `i`. */
  predicate At(i: nat, c: nat, ch: nat, at: nat) { at == i * c + ch }

  lemma SampleOfLinear(input: seq<real>, n: nat, c: nat, i: nat, ch: nat, a: real, b: real)
    requires c > 0 && |input| >= n * c && i < n && Linear(input, n, c, if ch < c then ch else 0, a, b)
    ensures SampleAt(input, n, c, i, ch) == a * i as real + b
  {
    var src := if ch < c then ch else 0;
    Index(i, n, c, src);
    assert At(i, c, src, i * c + src);
  }

  lemma OnTheLine(a: real, b: real, i: int, pos: real)
    ensures var s0, s1 := a * i as real + b, a * (i + 1) as real + b;
            s0 + (pos - i as real) * (s1 - s0) == a * pos + b
  {
    assert (i + 1) as real == i as real + 1.0;
    assert a * (i + 1) as real == a * i as real + a;
    assert (pos - i as real) * a == a * pos - a * i as real;
  }

  lemma {:induction false} FramesAt(input: seq<real>, n: nat, c: nat, phase: real, step: real, channels: nat, last: nat,
      k: nat, ch: nat)
    requires c > 0 && |input| >= n * c && phase >= 0.0 && step > 0.0 && k < last && ch < channels
    ensures last <= Count(phase, n, step) ==>
              && 0.0 <= Position(phase, k, step) && Position(phase, k, step).Floor + 1 < n
              && k * channels + ch < |Frames(input, n, c, phase, step, channels, last)|
              && Frames(input, n, c, phase, step, channels, last)[k * channels + ch]
                 == Interpolated(input, n, c, Position(phase, k, step), ch)
  {
    if last <= Count(phase, n, step) {
      FrameInBlock(phase, n, step, k);
      Index(k, last, channels, ch);
      if k < last - 1 {
        FramesAt(input, n, c, phase, step, channels, last - 1, k, ch);
        FrameInBlock(phase, n, step, last - 1);
      }
    }
  }

  /** A straight line is resampled exactly: every output frame of its channel, one for each position before the last
      input frame, has the value of the line at that position. Channels that the input lacks follow its first. */
  lemma LinearSignalIsExact(input: seq<real>, n: nat, c: nat, phase: real, step: real, channels: nat, k: nat, ch: nat,
      pos: real, a: real, b: real)
    requires c > 0 && |input| >= n * c && phase >= 0.0 && step > 0.0 && ch < channels
    requires pos == phase + k as real * step && pos < n as real - 1.0
    requires Linear(input, n, c, if ch < c then ch else 0, a, b)
    ensures
      var out := Frames(input, n, c, phase, step, channels, Count(phase, n, step));
      k * channels + ch < |out| && out[k * channels + ch] == a * pos + b
  {
    CountedBeforeEnd(phase, n, step, k);
    FramesAt(input, n, c, phase, step, channels, Count(phase, n, step), k, ch);
    LineAt(input, n, c, pos, ch, a, b);
  }

  lemma CountedBeforeEnd(phase: real, n: nat, step: real, k: nat)
    requires step > 0.0 && Position(phase, k, step) < n as real - 1.0
    ensures k < Count(phase, n, step)
  {
    CountIsExact(phase, n, step, Count(phase, n, step));
    if k >= Count(phase, n, step) { PositionMono(phase, Count(phase, n, step), k, step); }
  }

  lemma LineAt(input: seq<real>, n: nat, c: nat, pos: real, ch: nat, a: real, b: real)
    requires c > 0 && |input| >= n * c && 0.0 <= pos && pos.Floor + 1 < n
    requires Linear(input, n, c, if ch < c then ch else 0, a, b)
    ensures Interpolated(input, n, c, pos, ch) == a * pos + b
  {
    SampleOfLinear(input, n, c, pos.Floor, ch, a, b);
    SampleOfLinear(input, n, c, pos.Floor + 1, ch, a, b);
    OnTheLine(a, b, pos.Floor, pos);
  }

  /** Without a change of rate, every frame is copied; channels that the input lacks repeat its first. */
  lemma {:induction false} CopiedAt(input: seq<real>, n: nat, c: nat, channels: nat, last: nat, i: nat, ch: nat)
    requires c > 0 && |input| >= n * c && i < last <= n && ch < channels
    ensures i * channels + ch < |Copied(input, n, c, channels, last)|
    ensures i * c + (if ch < c then ch else 0) < |input|
    ensures Copied(input, n, c, channels, last)[i * channels + ch] == input[i * c + (if ch < c then ch else 0)]
  {
    Index(i, n, c, if ch < c then ch else 0);
    Index(i, last, channels, ch);
    CopiedNext(input, n, c, channels, last - 1);
    if i < last - 1 { CopiedAt(input, n, c, channels, last - 1, i, ch); }
  }

  lemma {:induction false} SumChanges(input: seq<real>, base: nat, c: nat, at: nat, d: real)
    requires base + c <= |input| && at < |input|
    ensures Sum(input[at := input[at] + d], base, c)
         == Sum(input, base, c) + (if base <= at < base + c then d else 0.0)
  {
    if c > 0 { SumChanges(input, base, c - 1, at, d); }
  }

  lemma {:induction false} DownMixedAt(input: seq<real>, n: nat, c: nat, i: nat)
    requires c > 0 && |input| >= n * c && i < n
    ensures i * c + c <= |input| && DownMixed(input, n, c)[i] == Mean(Sum(input, i * c, c), c)
  {
    Index(i, n, c, 0);
    NextFrame(n - 1, n, c);
    DownMixedStep(input, n - 1, c);
    if i < n - 1 { DownMixedAt(input, n - 1, c, i); }
  }

  lemma MeanChanges(sum: real, d: real, c: nat)
    requires c > 0
    ensures Mean(sum + d, c) == Mean(sum, c) + d / c as real
  {
    var inv := 1.0 / c as real;
    assert (sum + d) * inv == sum * inv + d * inv;
    assert d * inv == d / c as real;
  }

  /** Changing one sample of one channel by `d` moves its frame of the down-mixed block by `d` over the number of
      channels, and no other frame. */
  lemma ChannelsWeighAlike(input: seq<real>, n: nat, c: nat, i: nat, ch: nat, d: real, j: nat)
    requires c > 0 && |input| >= n * c && i < n && ch < c && j < n && i * c + ch < |input|
    ensures DownMixed(input[i * c + ch := input[i * c + ch] + d], n, c)[j]
         == DownMixed(input, n, c)[j] + (if i == j then d / c as real else 0.0)
  {
    var at := i * c + ch;
    var changed := input[at := input[at] + d];
    DownMixedAt(input, n, c, j);
    DownMixedAt(changed, n, c, j);
    SumChanges(input, j * c, c, at, d);
    OwnFrame(i, j, c, ch);
    MeanChanges(Sum(input, j * c, c), d, c);
  }

  lemma OwnFrame(i: nat, j: nat, c: nat, ch: nat)
    requires ch < c
    ensures j * c <= i * c + ch < j * c + c <==> i == j
  {
    if i < j { Index(i, j, c, ch); }
    if j < i { NextFrame(j, i, c); }
  }

  lemma NextFrame(k: nat, last: nat, channels: nat)
    requires k < last
    ensures k * channels + channels == (k + 1) * channels <= last * channels
  {
    var d := last - k - 1;
    assert last * channels == k * channels + channels + d * channels;
  }

  lemma NextPosition(phase: real, k: nat, step: real)
    ensures Position(phase, k + 1, step) == Position(phase, k, step) + step
  {
    assert (k + 1) as real == k as real + 1.0;
  }
}
