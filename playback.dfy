/**
 * The standalone driver: the exit code for a missing file argument, the
 * volume policy for the optional second argument, the output-buffer
 * arithmetic, and the gain stage that scales every interleaved stereo
 * 16-bit sample in place and clamps it to the 16-bit range.
 */
module Playback {
  import opened Options

  /** The range of a signed 16-bit sample. */
  const SampleMin: int := -32768
  const SampleMax: int := 32767
  /** The output is interleaved stereo of signed 16-bit samples. */
  const Channels: nat := 2
  const BytesPerSample: nat := 2

  predicate InSampleRange(x: int) { SampleMin <= x <= SampleMax }

  /** How a run starts: a usage error with its exit code, or playback of a file at a gain. */
  datatype Launch = Usage(exitCode: int) | Play(path: string, volume: real)

  /**
   * The volume policy for the optional second argument, already parsed to a
   * number: a value in [1, 100] is a percentage, any other non-negative value
   * is a linear factor as it stands (above 100 included), and a negative or
   * absent value means unity gain.
   */
  function SelectVolume(arg: Option<real>): (v: real)
    ensures v >= 0.0
    ensures v > 1.0 <==> arg.Some? && arg.value > 100.0
    ensures arg.None? || arg.value < 0.0 ==> v == 1.0
    ensures arg.Some? && 0.0 <= arg.value ==> v <= arg.value
    ensures arg.Some? && 1.0 <= arg.value <= 100.0 ==> v * 100.0 == arg.value
    ensures arg.Some? && 0.0 <= arg.value && !(1.0 <= arg.value <= 100.0) ==> v == arg.value
  {
    match arg
    case None => 1.0
    case Some(x) =>
      if 1.0 <= x <= 100.0 then x / 100.0
      else if x >= 0.0 then x
      else 1.0
  }

  /**
   * The start of `main`: fewer than two argv entries is a usage error with
   * exit code 1; otherwise argv[1] is the file and argv[2], when present, is
   * read by `atof` (a parameter here) and passed through the volume policy.
   */
  function Startup(argv: seq<string>, atof: string -> real): (r: Launch)
    ensures r.Usage? <==> |argv| < 2
    ensures r.Usage? ==> r.exitCode == 1
    ensures r.Play? ==> r.path == argv[1] && r.volume >= 0.0
    ensures r.Play? && |argv| == 2 ==> r.volume == 1.0
    ensures r.Play? && |argv| > 2 ==> r.volume == SelectVolume(Some(atof(argv[2])))
  {
    if |argv| < 2 then Usage(1)
    else Play(argv[1], SelectVolume(if |argv| > 2 then Some(atof(argv[2])) else None))
  }

  /** A real scaled sample converted to an integer, dropping the fraction toward zero. */
  function TruncTowardZero(x: real): (n: int)
    ensures 0.0 <= x ==> n as real <= x < n as real + 1.0
    ensures x < 0.0 ==> n as real - 1.0 < x <= n as real
  {
    if x >= 0.0 then x.Floor else -((-x).Floor)
  }

  /** The two saturating comparisons of the gain loop. */
  function ClampToSample(v: int): (c: int)
    ensures InSampleRange(c)
    ensures InSampleRange(v) ==> c == v
    ensures v > SampleMax ==> c == SampleMax
    ensures v < SampleMin ==> c == SampleMin
  {
    var upper := if v > SampleMax then SampleMax else v;
    if upper < SampleMin then SampleMin else upper
  }

  /** One sample through the gain stage. */
  function GainSample(s: int, volume: real): (out: int)
    ensures InSampleRange(out)
  {
    ClampToSample(TruncTowardZero(s as real * volume))
  }

  /** A run of samples through the gain stage, one by one. */
  function GainAll(s: seq<int>, volume: real): (out: seq<int>)
    ensures |out| == |s|
    ensures forall k | 0 <= k < |out| :: InSampleRange(out[k])
  {
    if s == [] then [] else [GainSample(s[0], volume)] + GainAll(s[1..], volume)
  }

  /** The gain stage is the clamp of the truncated product, whatever name the product is given. */
  lemma GainSampleUnfold(s: int, volume: real, t: int)
    requires t == TruncTowardZero(s as real * volume)
    ensures GainSample(s, volume) == ClampToSample(t)
  {
  }

  /** Gain 1.0 leaves every 16-bit sample as it was. */
  lemma UnityGain(s: int)
    requires InSampleRange(s)
    ensures GainSample(s, 1.0) == s
  {
  }

  /**
   * A gain in [0, 1] never reaches the clamps: the result is the truncated
   * product, no further from zero than the input and never of the other sign.
   */
  lemma AttenuationNeverClips(s: int, volume: real)
    requires InSampleRange(s)
    requires 0.0 <= volume <= 1.0
    ensures GainSample(s, volume) == TruncTowardZero(s as real * volume)
    ensures 0 <= s ==> 0 <= GainSample(s, volume) <= s
    ensures s < 0 ==> s <= GainSample(s, volume) <= 0
  {
    var t := TruncTowardZero(s as real * volume);
    GainSampleUnfold(s, volume, t);
    TruncScaledWithin(s, volume);
    ClampWithin(t, s);
  }

  /** A value between 0 and a 16-bit sample passes the clamps unchanged. */
  lemma ClampWithin(t: int, s: int)
    requires InSampleRange(s)
    requires 0 <= s ==> 0 <= t <= s
    requires s < 0 ==> s <= t <= 0
    ensures ClampToSample(t) == t
  {
  }

  /** A sample scaled by a factor in [0, 1] and truncated lies between 0 and the sample. */
  lemma TruncScaledWithin(s: int, volume: real)
    requires 0.0 <= volume <= 1.0
    ensures 0 <= s ==> 0 <= TruncTowardZero(s as real * volume) <= s
    ensures s < 0 ==> s <= TruncTowardZero(s as real * volume) <= 0
  {
    var x := s as real * volume;
    if 0 <= s {
      ScaleNonNegative(s as real, volume);
      TruncWithin(x, s);
    } else {
      ScaleNegative(s as real, volume);
      TruncWithin(x, s);
    }
  }

  /** Truncating a value that lies between 0 and a sample lands between 0 and that sample. */
  lemma TruncWithin(x: real, s: int)
    requires 0 <= s ==> 0.0 <= x <= s as real
    requires s < 0 ==> s as real <= x <= 0.0
    ensures 0 <= s ==> 0 <= TruncTowardZero(x) <= s
    ensures s < 0 ==> s <= TruncTowardZero(x) <= 0
  {
  }

  lemma ProductNonNegative(a: real, b: real)
    requires 0.0 <= a && 0.0 <= b
    ensures 0.0 <= a * b
  {
  }

  lemma ScaleNonNegative(a: real, volume: real)
    requires 0.0 <= a && 0.0 <= volume <= 1.0
    ensures 0.0 <= a * volume <= a
  {
    assert a * volume <= a * 1.0;
  }

  lemma ScaleNegative(a: real, volume: real)
    requires a < 0.0 && 0.0 <= volume <= 1.0
    ensures a <= a * volume <= 0.0
  {
    assert a * 1.0 <= a * volume;
  }

  /** For a fixed non-negative gain, a louder input never comes out quieter. */
  lemma GainMonotone(s1: int, s2: int, volume: real)
    requires s1 <= s2 && 0.0 <= volume
    ensures GainSample(s1, volume) <= GainSample(s2, volume)
  {
    var t1, t2 := TruncTowardZero(s1 as real * volume), TruncTowardZero(s2 as real * volume);
    GainSampleUnfold(s1, volume, t1);
    GainSampleUnfold(s2, volume, t2);
    TruncScaledMonotone(s1, s2, volume);
    ClampMonotone(t1, t2);
  }

  /** Scaling and truncating keep the order of two samples under a non-negative gain. */
  lemma TruncScaledMonotone(s1: int, s2: int, volume: real)
    requires s1 <= s2 && 0.0 <= volume
    ensures TruncTowardZero(s1 as real * volume) <= TruncTowardZero(s2 as real * volume)
  {
    var x1, x2 := s1 as real * volume, s2 as real * volume;
    assert x2 - x1 == (s2 - s1) as real * volume;
    ProductNonNegative((s2 - s1) as real, volume);
    TruncMonotone(x1, x2);
  }

  lemma TruncMonotone(x1: real, x2: real)
    requires x1 <= x2
    ensures TruncTowardZero(x1) <= TruncTowardZero(x2)
  {
  }

  lemma ClampMonotone(t1: int, t2: int)
    requires t1 <= t2
    ensures ClampToSample(t1) <= ClampToSample(t2)
  {
  }

  /** Above unity gain a loud sample saturates at the top of the range ... */
  lemma LoudPositiveSaturates()
    ensures GainSample(30000, 1.5) == SampleMax
  {
    assert TruncTowardZero(45000.0) == 45000;
  }

  /** ... and a loud negative one at the bottom. */
  lemma LoudNegativeSaturates()
    ensures GainSample(-30000, 1.5) == SampleMin
  {
    assert TruncTowardZero(-45000.0) == -45000;
  }

  /** A volume argument of at most 100 never makes the gain stage clip. */
  lemma VolumeUpTo100NeverClips(arg: Option<real>, s: int)
    requires arg.None? || arg.value <= 100.0
    requires InSampleRange(s)
    ensures GainSample(s, SelectVolume(arg)) == TruncTowardZero(s as real * SelectVolume(arg))
  {
    AttenuationNeverClips(s, SelectVolume(arg));
  }

  /** A run of 16-bit samples at gain 1.0 comes out as it went in. */
  lemma {:induction false} UnityGainAll(s: seq<int>)
    requires forall k | 0 <= k < |s| :: InSampleRange(s[k])
    ensures GainAll(s, 1.0) == s
  {
    if s != [] {
      UnityGain(s[0]);
      UnityGainAll(s[1..]);
    }
  }

  /** The k-th sample of a processed run is the k-th input through the gain stage. */
  lemma {:induction false} GainAllAt(s: seq<int>, volume: real, k: nat)
    requires k < |s|
    ensures GainAll(s, volume)[k] == GainSample(s[k], volume)
  {
    if k > 0 {
      GainAllAt(s[1..], volume, k - 1);
    }
  }

  /** Processing a run one more sample long appends that sample's gained value. */
  lemma {:induction false} GainAllAppend(s: seq<int>, x: int, volume: real)
    ensures GainAll(s + [x], volume) == GainAll(s, volume) + [GainSample(x, volume)]
  {
    if s != [] {
      assert (s + [x])[1..] == s[1..] + [x];
      GainAllAppend(s[1..], x, volume);
    }
  }

  /**
   * The gain loop: the first `totalSamples` entries of the buffer are
   * replaced by their gained and clamped values, and the rest of the buffer
   * is left as it was.
   */
  method ApplyGain(samples: array<int>, totalSamples: nat, volume: real)
    requires totalSamples <= samples.Length
    modifies samples
    ensures samples[..totalSamples] == GainAll(old(samples[..totalSamples]), volume)
    ensures samples[totalSamples..] == old(samples[totalSamples..])
  {
    ghost var input := samples[..];
    var i := 0;
    while i < totalSamples
      invariant i <= totalSamples
      invariant samples[..i] == GainAll(input[..i], volume)
      invariant samples[i..] == input[i..]
    {
      var s := samples[i];
      var v := TruncTowardZero(s as real * volume);
      ghost var t := v;
      if v > SampleMax {
        v := SampleMax;
      }
      if v < SampleMin {
        v := SampleMin;
      }
      assert v == ClampToSample(t);
      GainSampleUnfold(s, volume, t);
      assert s == input[i] by { assert samples[i..][0] == input[i..][0]; }
      GainAllAppend(input[..i], s, volume);
      assert input[..i + 1] == input[..i] + [s];
      ghost var done := samples[..i];
      samples[i] := v;
      assert samples[..i + 1] == done + [v];
      assert samples[i + 1..] == input[i + 1..] by { assert samples[i + 1..] == old(samples[..])[i + 1..]; }
      i := i + 1;
    }
  }

  /** The size in bytes the output buffer is given for room for `maxOutSamples` frames. */
  function OutBufSize(maxOutSamples: nat): nat
  {
    maxOutSamples * Channels * BytesPerSample
  }

  /** The bytes one converted frame batch occupies. */
  function BytesToWrite(converted: nat): nat
  {
    converted * Channels * BytesPerSample
  }

  /** The number of interleaved samples the gain loop visits. */
  function TotalSamples(converted: nat): nat
  {
    converted * Channels
  }

  /**
   * When the resampler delivers no more frames than it was given room for,
   * both the byte count and the sample span of the gain loop fit inside the
   * buffer, and they describe the same bytes.
   */
  lemma FrameFitsBuffer(maxOutSamples: nat, converted: nat)
    requires converted <= maxOutSamples
    ensures BytesToWrite(converted) <= OutBufSize(maxOutSamples)
    ensures TotalSamples(converted) * BytesPerSample <= OutBufSize(maxOutSamples)
    ensures TotalSamples(converted) * BytesPerSample == BytesToWrite(converted)
  {
  }

  /** The byte buffer of the frame loop, seen as the 16-bit samples it holds. */
  class OutputBuffer {
    var samples: array<int>

    constructor ()
      ensures samples.Length == 0
    {
      samples := new int[0];
    }

    /**
     * Resizing to `byteSize` bytes: the samples that still fit are kept and
     * new room is zero-filled.
     */
    method Resize(byteSize: nat)
      requires byteSize % BytesPerSample == 0
      modifies this
      ensures samples.Length * BytesPerSample == byteSize
      ensures fresh(samples)
      ensures forall k | 0 <= k < samples.Length ::
                samples[k] == if k < old(samples.Length) then old(samples[k]) else 0
    {
      var count := byteSize / BytesPerSample;
      var old_ := samples;
      var grown := new int[count];
      var i := 0;
      while i < count
        invariant i <= count
        invariant forall k | 0 <= k < i :: grown[k] == if k < old_.Length then old_[k] else 0
      {
        grown[i] := if i < old_.Length then old_[i] else 0;
        i := i + 1;
      }
      samples := grown;
    }

    /**
     * One decoded frame: the buffer is resized for `maxOutSamples` frames,
     * the resampler writes `converted` interleaved stereo frames (`produced`,
     * a parameter here) to its start, and the gain loop runs over them. The
     * result is the byte count computed for the device write.
     */
    method ProcessFrame(maxOutSamples: nat, converted: nat, produced: seq<int>, volume: real)
      returns (bytesToWrite: nat)
      requires converted <= maxOutSamples
      requires |produced| == TotalSamples(converted)
      modifies this
      ensures samples.Length * BytesPerSample == OutBufSize(maxOutSamples)
      ensures samples[..TotalSamples(converted)] == GainAll(produced, volume)
      ensures bytesToWrite == TotalSamples(converted) * BytesPerSample <= OutBufSize(maxOutSamples)
    {
      FrameFitsBuffer(maxOutSamples, converted);
      Resize(OutBufSize(maxOutSamples));
      var total := TotalSamples(converted);
      var i := 0;
      while i < total
        invariant i <= total <= samples.Length
        invariant samples[..i] == produced[..i]
        modifies samples
      {
        samples[i] := produced[i];
        i := i + 1;
      }
      bytesToWrite := BytesToWrite(converted);
      assert samples[..total] == produced;
      ApplyGain(samples, total, volume);
    }
  }
}
