/**
 * The sample library's rate conversion (`trans_sample` / `get_sample`).
 *
 * A recording is a table of frames; a frame holds one amplitude per channel.
 * Target frame `pos` is read from the fractional source position
 * p = pos * sr / tsr: frames floor(p) and floor(p)+1 are blended, or frame
 * floor(p) is copied when it is the last one, or a silent frame is emitted
 * when floor(p) is past the end. Positions are exact rationals and
 * amplitudes are reals.
 */
module Resample {
  import opened Arith

  type Frame = seq<real>
  type Table = seq<Frame>

  /** The equilibrium (silent) value repeated `n` times. */
  function Equilibrium(n: nat): (r: seq<real>)
    ensures |r| == n && forall k :: 0 <= k < n ==> r[k] == 0.0
  {
    seq(n, _ => 0.0)
  }

  /** Every frame of `t` has exactly `w` channels. */
  predicate Uniform(t: Table, w: nat)
  {
    forall f :: 0 <= f < |t| ==> |t[f]| == w
  }

  /** Every amplitude of `t` lies in [lo, hi]. */
  predicate Within(t: Table, lo: real, hi: real)
  {
    forall f, k :: 0 <= f < |t| && 0 <= k < |t[f]| ==> lo <= t[f][k] <= hi
  }

  /** The source position of target frame `pos`, split into its floor and its fractional part. */
  function Position(pos: nat, sr: nat, tsr: nat): (p: (nat, real))
    requires tsr > 0
    ensures 0.0 <= p.1 < 1.0
    ensures p.0 as real + p.1 == (pos * sr) as real / tsr as real
  {
    var m := pos * sr;
    var q, r := m / tsr, m % tsr;
    assert m as real == q as real * tsr as real + r as real;
    (q, r as real / tsr as real)
  }

  /** Channel-wise blend `a*(1-s) + b*s`; like a `zip`, it stops at the shorter frame. */
  function Lerp(a: Frame, b: Frame, s: real): (r: Frame)
    ensures |r| == Min(|a|, |b|)
    ensures 0.0 <= s <= 1.0 ==> forall k :: 0 <= k < |r| ==> Between(r[k], a[k], b[k])
  {
    var r := seq(Min(|a|, |b|), k requires 0 <= k < Min(|a|, |b|) => a[k] * (1.0 - s) + b[k] * s);
    assert 0.0 <= s <= 1.0 ==> forall k :: 0 <= k < |r| ==> Between(r[k], a[k], b[k]) by {
      if 0.0 <= s <= 1.0 {
        forall k | 0 <= k < |r| ensures Between(r[k], a[k], b[k]) {
          BlendBetween(a[k], b[k], s);
        }
      }
    }
    r
  }

  /** `get_sample`: the frame at target position `pos`. */
  function GetSample(samples: Table, pos: nat, sr: nat, tsr: nat): (r: Frame)
    requires |samples| > 0 && tsr > 0
    ensures Uniform(samples, |samples[0]|) ==> |r| == |samples[0]|
  {
    var (i, s) := Position(pos, sr, tsr);
    if i + 1 < |samples| then Lerp(samples[i], samples[i + 1], s)
    else if i < |samples| then samples[i]
    else Equilibrium(|samples[0]|)
  }

  /** `trans_sample`: one output frame per INPUT frame, each read at its own target position. */
  function TransSample(input: Table, sr: nat, tsr: nat): (r: Table)
    requires tsr > 0
    ensures |r| == |input|
  {
    seq(|input|, pos requires 0 <= pos < |input| => GetSample(input, pos, sr, tsr))
  }

  /** `v` lies on the segment between `a` and `b`. */
  predicate Between(v: real, a: real, b: real)
  {
    a <= v <= b || b <= v <= a
  }

  /** A blend with weight in [0, 1] stays between its two end points. */
  lemma BlendBetween(x: real, y: real, s: real)
    requires 0.0 <= s <= 1.0
    ensures Between(x * (1.0 - s) + y * s, x, y)
  {
    if x <= y {
      Blend(x, y, s);
    } else {
      Blend(y, x, 1.0 - s);
      assert y * (1.0 - (1.0 - s)) + x * (1.0 - s) == x * (1.0 - s) + y * s;
    }
  }

  lemma Blend(lo: real, hi: real, s: real)
    requires lo <= hi && 0.0 <= s <= 1.0
    ensures lo <= lo * (1.0 - s) + hi * s <= hi
  {
    var d := hi - lo;
    assert lo * (1.0 - s) + hi * s == lo + d * s;
    assert d * s >= 0.0;
    assert d * (1.0 - s) >= 0.0;
    assert hi - (lo + d * s) == d * (1.0 - s);
  }

  /**
   * Every frame `get_sample` produces is one of three kinds: a blend of
   * source frames i and i+1, a copy of frame i, or silence of the first
   * frame's width, where i = floor(pos * sr / tsr). The blend weight is
   * the fractional part of the exact position pos * sr / tsr.
   */
  lemma GetSampleCases(samples: Table, pos: nat, sr: nat, tsr: nat)
    requires |samples| > 0 && tsr > 0
    ensures var i := (pos * sr) / tsr;
            var r := GetSample(samples, pos, sr, tsr);
            var frac := (pos * sr) as real / tsr as real - i as real;
            (i + 1 < |samples| ==>
               r == Lerp(samples[i], samples[i + 1], frac) &&
               |r| == Min(|samples[i]|, |samples[i + 1]|) &&
               forall k :: 0 <= k < |r| ==> Between(r[k], samples[i][k], samples[i + 1][k])) &&
            (i + 1 == |samples| ==> r == samples[i]) &&
            (i >= |samples| ==> r == Equilibrium(|samples[0]|))
  {
    var (i, s) := Position(pos, sr, tsr);
    assert i == (pos * sr) / tsr;
    if i + 1 < |samples| {
      var r := Lerp(samples[i], samples[i + 1], s);
      forall k | 0 <= k < |r|
        ensures Between(r[k], samples[i][k], samples[i + 1][k])
      {
        BlendBetween(samples[i][k], samples[i + 1][k], s);
      }
    }
  }

  /** With equal rates the conversion is the identity on a table of uniform width. */
  lemma {:induction false} TransSampleIdentity(input: Table, rate: nat, w: nat)
    requires rate > 0 && Uniform(input, w)
    ensures TransSample(input, rate, rate) == input
  {
    var r := TransSample(input, rate, rate);
    forall pos | 0 <= pos < |input|
      ensures r[pos] == input[pos]
    {
      DivModUnique(pos * rate, rate, pos, 0);
      assert Position(pos, rate, rate) == (pos, 0.0);
      if pos + 1 < |input| {
        var l := Lerp(input[pos], input[pos + 1], 0.0);
        assert |l| == w;
        forall k | 0 <= k < w ensures l[k] == input[pos][k] {
        }
      }
    }
  }

  /** Conversion keeps the channel count of a table of uniform width. */
  lemma TransSampleWidth(input: Table, sr: nat, tsr: nat, w: nat)
    requires tsr > 0 && Uniform(input, w)
    ensures Uniform(TransSample(input, sr, tsr), w)
  {
  }

  /** Conversion never leaves the amplitude range of its input; the range must hold 0, the value of a silent frame. */
  lemma TransSampleWithin(input: Table, sr: nat, tsr: nat, lo: real, hi: real)
    requires tsr > 0 && lo <= 0.0 <= hi && Within(input, lo, hi)
    ensures Within(TransSample(input, sr, tsr), lo, hi)
  {
    var r := TransSample(input, sr, tsr);
    forall f, k | 0 <= f < |r| && 0 <= k < |r[f]|
      ensures lo <= r[f][k] <= hi
    {
      GetSampleCases(input, f, sr, tsr);
    }
  }

  /**
   * When downsampling, the output keeps the input's length, so the target
   * positions past the source's duration (pos * sr >= |input| * tsr) are silent.
   */
  lemma DownsampledTailIsSilent(input: Table, sr: nat, tsr: nat, pos: nat)
    requires tsr > 0 && pos < |input| && pos * sr >= |input| * tsr
    ensures TransSample(input, sr, tsr)[pos] == Equilibrium(|input[0]|)
  {
    var i := (pos * sr) / tsr;
    DivModUnique(pos * sr, tsr, i, (pos * sr) % tsr);
    if i < |input| {
      assert (|input| - i) * tsr >= tsr by { MulAtLeast(|input| - i, tsr); }
      assert false;
    }
    GetSampleCases(input, pos, sr, tsr);
  }

  /**
   * When the source rate does not exceed the target rate, target frame
   * `pos` reads no source frame after `pos`, so every output frame is a
   * blend or a copy of source frames, never silence; with only |input|
   * output frames, the source is read no further than position
   * (|input| - 1) * sr / tsr.
   */
  lemma UpsampledNeverSilent(input: Table, sr: nat, tsr: nat, pos: nat)
    requires 0 < tsr && sr <= tsr && pos < |input|
    ensures (pos * sr) / tsr <= pos
    ensures var i := (pos * sr) / tsr;
            i < |input| &&
            TransSample(input, sr, tsr)[pos]
              == (if i + 1 < |input| then Lerp(input[i], input[i + 1], Position(pos, sr, tsr).1) else input[i])
  {
    var i := (pos * sr) / tsr;
    DivModUnique(pos * sr, tsr, i, (pos * sr) % tsr);
    if i > pos {
      MulMono(sr, tsr, pos);
      MulMono(pos + 1, i, tsr);
      assert false;
    }
  }
}
