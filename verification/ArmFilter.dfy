/**
 * process_on_arm (rpmsg_audio_example.c): every channel of the interleaved buffer is transformed, filtered and written
 * back in place. The transform pair and the final conversion are parameters, over the reals.
 */
module ArmFilter {
  import opened Common
  import opened Interleaved

  const SAMPLE_RATE: nat := 48000
  const CUTOFF: nat := 5000

  datatype Complex = Complex(re: real, im: real)

  /** FFTW's real-to-complex and complex-to-real transforms, and the conversion of a double to int16_t. */
  datatype Dft = Dft(forward: seq<real> -> seq<Complex>, inverse: seq<Complex> -> seq<real>, cast: real -> Sample)

  /** n real samples have n / 2 + 1 spectral bins. */
  ghost predicate Sized(dft: Dft, n: nat) {
    && (forall x :: |x| == n ==> |dft.forward(x)| == n / 2 + 1)
    && (forall x :: |x| == n / 2 + 1 ==> |dft.inverse(x)| == n)
  }

  function Times(n: nat, x: real): real {
    n as real * x
  }

  function Scaled(x: seq<real>, n: nat): (r: seq<real>)
    ensures |r| == |x|
  {
    seq(|x|, i requires 0 <= i < |x| => Times(n, x[i]))
  }

  predicate KeepsWhole(dft: Dft, v: Sample) {
    Cast(dft, v as real) == v
  }

  /** The unnormalised inverse scales by n, and the conversion keeps whole numbers that fit. */
  ghost predicate ExactPair(dft: Dft, n: nat) {
    && (forall x :: |x| == n ==> dft.inverse(dft.forward(x)) == Scaled(x, n))
    && forall v: Sample :: KeepsWhole(dft, v)
  }

  /** A spectrum whose bin i holds samples 2 i and 2 i + 1. */
  function Packed(x: seq<real>): (r: seq<Complex>)
    ensures |r| == |x| / 2 + 1
  {
    seq(|x| / 2 + 1, i requires 0 <= i < |x| / 2 + 1 =>
      Complex(if 2 * i < |x| then x[2 * i] else 0.0, if 2 * i + 1 < |x| then x[2 * i + 1] else 0.0))
  }

  function Unpacked(s: seq<Complex>, n: nat): (r: seq<real>)
    ensures |r| == n
  {
    seq(n, i requires 0 <= i < n =>
      if i / 2 >= |s| then 0.0 else Times(n, if i % 2 == 0 then s[i / 2].re else s[i / 2].im))
  }

  lemma PackedAt(x: seq<real>, i: nat)
    requires i < |x|
    ensures Unpacked(Packed(x), |x|)[i] == Scaled(x, |x|)[i]
  {
    hide Times;
    assert 2 * (i / 2) + i % 2 == i && i / 2 < |Packed(x)|;
  }

  /** Exact pairs exist for every frame size. */
  lemma ExactPairExists(n: nat) returns (dft: Dft)
    requires n > 0
    ensures Sized(dft, n) && ExactPair(dft, n)
  {
    hide Packed, Unpacked;
    dft := Dft(Packed, s => Unpacked(s, n), (v: real) => if -32768 <= v.Floor < 32768 then v.Floor else 0);
    forall x: seq<real> | |x| == n
      ensures dft.inverse(dft.forward(x)) == Scaled(x, n)
    {
      forall i | 0 <= i < n
        ensures Unpacked(Packed(x), n)[i] == Scaled(x, n)[i]
      {
        PackedAt(x, i);
      }
      assert Unpacked(Packed(x), n) == Scaled(x, n);
    }
  }

  // ---------- One channel ----------

  /** The frequency of a bin as the code computes it, in whole hertz. */
  function BinFrequency(i: nat): nat {
    i * SAMPLE_RATE / NUM_FRAMES
  }

  function LowPass(spectrum: seq<Complex>): (r: seq<Complex>)
    ensures |r| == |spectrum|
  {
    seq(|spectrum|, i requires 0 <= i < |spectrum| =>
      if BinFrequency(i) >= CUTOFF then Complex(0.0, 0.0) else spectrum[i])
  }

  /**
   * Rounding the frequency down does not matter: the filter clears exactly the bins from the cutoff on, which for a
   * 256-sample frame is the suffix from bin 27, and keeps the others.
   */
  lemma LowPassClearsSuffix(spectrum: seq<Complex>, i: nat)
    requires i < |spectrum|
    ensures i * SAMPLE_RATE >= CUTOFF * NUM_FRAMES <==> i >= 27
    ensures LowPass(spectrum)[i] == if i * SAMPLE_RATE >= CUTOFF * NUM_FRAMES then Complex(0.0, 0.0) else spectrum[i]
  {
  }

  function Reals(x: seq<Sample>): (r: seq<real>)
    ensures |r| == |x|
  {
    seq(|x|, i requires 0 <= i < |x| => x[i] as real)
  }

  function Cast(dft: Dft, x: real): Sample {
    dft.cast(x)
  }

  /** (int16_t)(output[i] / N). The clamp that follows in the code can never take effect. */
  function WriteBack(dft: Dft, x: real, n: nat): Sample
    requires n > 0
  {
    Cast(dft, Normalised(x, n))
  }

  function Normalised(x: real, n: nat): real
    requires n > 0
  {
    x / n as real
  }

  function WrittenBack(dft: Dft, output: seq<real>, n: nat): (r: seq<Sample>)
    requires n > 0 && |output| == n
    ensures |r| == n
  {
    seq(n, i requires 0 <= i < n => WriteBack(dft, output[i], n))
  }

  /** What becomes of the samples of one channel. */
  ghost function Transform(dft: Dft, n: nat, filter: bool, x: seq<Sample>): (r: seq<Sample>)
    requires n > 0 && Sized(dft, n) && |x| == n
    ensures |r| == n
  {
    var spectrum := dft.forward(Reals(x));
    WrittenBack(dft, dft.inverse(if filter then LowPass(spectrum) else spectrum), n)
  }

  lemma TransformIsIdentity(dft: Dft, n: nat, x: seq<Sample>)
    requires n > 0 && Sized(dft, n) && ExactPair(dft, n) && |x| == n
    ensures Transform(dft, n, false, x) == x
  {
    hide WriteBack, Times;
    var scaled := Scaled(Reals(x), n);
    assert dft.inverse(dft.forward(Reals(x))) == scaled;
    forall i | 0 <= i < n
      ensures WriteBack(dft, scaled[i], n) == x[i]
    {
      WriteBackScaled(dft, x[i], n);
    }
    TransformAt(dft, n, x, scaled);
  }

  lemma TransformAt(dft: Dft, n: nat, x: seq<Sample>, output: seq<real>)
    requires n > 0 && Sized(dft, n) && |x| == n && output == dft.inverse(dft.forward(Reals(x))) && |output| == n
    requires forall i :: 0 <= i < n ==> WriteBack(dft, output[i], n) == x[i]
    ensures Transform(dft, n, false, x) == x
  {
    hide WriteBack;
  }

  lemma WriteBackScaled(dft: Dft, v: Sample, n: nat)
    requires n > 0 && KeepsWhole(dft, v)
    ensures WriteBack(dft, Times(n, v as real), n) == v
  {
    NormaliseScaled(v as real, n);
  }

  lemma NormaliseScaled(x: real, n: nat)
    requires n > 0
    ensures Normalised(Times(n, x), n) == x
  {
    Cancel(n as real, x);
  }

  lemma Cancel(n: real, x: real)
    requires n != 0.0
    ensures n * x / n == x
  {
  }

  // ---------- What the filter does to a channel ----------

  /** Two spectra that agree below the cutoff. */
  ghost predicate SameLowBins(a: seq<Complex>, b: seq<Complex>) {
    |a| == |b| && forall i :: 0 <= i < |a| && i * SAMPLE_RATE < CUTOFF * NUM_FRAMES ==> a[i] == b[i]
  }

  ghost predicate NoHighBins(a: seq<Complex>) {
    forall i :: 0 <= i < |a| && i * SAMPLE_RATE >= CUTOFF * NUM_FRAMES ==> a[i] == Complex(0.0, 0.0)
  }

  /** The bins of the cutoff: 0 to 26 are below it. */
  lemma LowBins(a: seq<Complex>, b: seq<Complex>)
    ensures SameLowBins(a, b) <==> |a| == |b| && forall i :: 0 <= i < |a| && i < 27 ==> a[i] == b[i]
    ensures NoHighBins(a) <==> forall i :: 27 <= i < |a| ==> a[i] == Complex(0.0, 0.0)
  {
  }

  /** A spectrum is filtered to the one that agrees with it below the cutoff and has nothing from there on. */
  lemma LowPassIs(spectrum: seq<Complex>, kept: seq<Complex>)
    requires SameLowBins(kept, spectrum) && NoHighBins(kept)
    ensures LowPass(spectrum) == kept
  {
    forall i | 0 <= i < |kept|
      ensures LowPass(spectrum)[i] == kept[i]
    {
      LowPassClearsSuffix(spectrum, i);
    }
  }

  /**
   * With the filter on, each sample is the converted and normalised inverse of `kept`: the spectrum of the channel
   * below the cutoff, and nothing from there on. With the filter off it is that of the spectrum itself.
   */
  lemma FilteredSample(dft: Dft, n: nat, x: seq<Sample>, kept: seq<Complex>, i: nat)
    requires n > 0 && Sized(dft, n) && |x| == n && i < n
    requires SameLowBins(kept, dft.forward(Reals(x))) && NoHighBins(kept)
    ensures |dft.inverse(kept)| == n && Transform(dft, n, true, x)[i] == dft.cast(dft.inverse(kept)[i] / n as real)
    ensures Transform(dft, n, false, x)[i] == dft.cast(dft.inverse(dft.forward(Reals(x)))[i] / n as real)
  {
    hide LowPass;
    LowPassIs(dft.forward(Reals(x)), kept);
  }

  /** So two channels that differ above the cutoff only become the same. */
  lemma HighBinsDoNotMatter(dft: Dft, n: nat, x: seq<Sample>, y: seq<Sample>)
    requires n > 0 && Sized(dft, n) && |x| == |y| == n
    requires SameLowBins(dft.forward(Reals(x)), dft.forward(Reals(y)))
    ensures Transform(dft, n, true, x) == Transform(dft, n, true, y)
  {
    hide Sized;
    var a, b := dft.forward(Reals(x)), dft.forward(Reals(y));
    forall i | 0 <= i < |b|
      ensures LowPass(b)[i] == LowPass(a)[i]
    {
      LowPassClearsSuffix(a, i);
      LowPassClearsSuffix(b, i);
    }
    assert LowPass(a) == LowPass(b);
  }

  /** And a channel with nothing above the cutoff passes the filter unchanged. */
  lemma LowChannelPasses(dft: Dft, n: nat, x: seq<Sample>)
    requires n > 0 && Sized(dft, n) && ExactPair(dft, n) && |x| == n && NoHighBins(dft.forward(Reals(x)))
    ensures Transform(dft, n, true, x) == x
  {
    hide LowPass, ExactPair;
    LowPassIs(dft.forward(Reals(x)), dft.forward(Reals(x)));
    TransformIsIdentity(dft, n, x);
  }

  // ---------- The interleaved buffer ----------

  /** Every channel transformed on its own, then interleaved again; what follows the n frames is kept. */
  ghost function Processed(dft: Dft, data: seq<Sample>, n: nat, channels: nat, filter: seq<bool>): (r: seq<Sample>)
    requires n > 0 && channels > 0 && Sized(dft, n) && n * channels <= |data| && |filter| == channels
    ensures |r| == |data|
  {
    seq(|data|, k requires 0 <= k < |data| =>
      if k >= n * channels then data[k]
      else
        IndexParts(k, n, channels);
        Transform(dft, n, filter[k % channels], Channel(data, n, channels, k % channels))[k / channels])
  }

  /** Channel by channel: deinterleaving the result gives the transforms of the original channels. */
  lemma ProcessedChannel(dft: Dft, data: seq<Sample>, n: nat, channels: nat, filter: seq<bool>, ch: nat)
    requires n > 0 && Sized(dft, n) && ch < channels == |filter| && n * channels <= |data|
    ensures Channel(Processed(dft, data, n, channels, filter), n, channels, ch) ==
      Transform(dft, n, filter[ch], Channel(data, n, channels, ch))
  {
    var result := Processed(dft, data, n, channels, filter);
    forall i | 0 <= i < n
      ensures Channel(result, n, channels, ch)[i] == Transform(dft, n, filter[ch], Channel(data, n, channels, ch))[i]
    {
      IndexBounds(i, n, channels, ch);
    }
  }

  /** With an exact transform pair a channel is unchanged if its flag is off or it has nothing above the cutoff. */
  lemma ChannelPasses(dft: Dft, data: seq<Sample>, n: nat, channels: nat, filter: seq<bool>, ch: nat)
    requires n > 0 && Sized(dft, n) && ExactPair(dft, n) && ch < channels == |filter| && n * channels <= |data|
    requires filter[ch] ==> NoHighBins(dft.forward(Reals(Channel(data, n, channels, ch))))
    ensures Channel(Processed(dft, data, n, channels, filter), n, channels, ch) == Channel(data, n, channels, ch)
  {
    hide Sized, ExactPair, Channel, Transform, NoHighBins;
    ProcessedChannel(dft, data, n, channels, filter, ch);
    if filter[ch] {
      LowChannelPasses(dft, n, Channel(data, n, channels, ch));
    } else {
      TransformIsIdentity(dft, n, Channel(data, n, channels, ch));
    }
  }

  /** With the filter off and an exact transform pair the whole buffer is unchanged. */
  lemma FilterOffChangesNothing(dft: Dft, data: seq<Sample>, n: nat, channels: nat, filter: seq<bool>)
    requires n > 0 && Sized(dft, n) && ExactPair(dft, n) && channels > 0 && n * channels <= |data|
    requires |filter| == channels && forall ch :: 0 <= ch < channels ==> !filter[ch]
    ensures Processed(dft, data, n, channels, filter) == data
  {
    hide Sized, ExactPair, Channel, Transform;
    var result := Processed(dft, data, n, channels, filter);
    forall c | 0 <= c < channels
      ensures Channel(result, n, channels, c) == Channel(data, n, channels, c)
    {
      ChannelPasses(dft, data, n, channels, filter, c);
    }
    ChannelsDetermine(result, data, n, channels);
  }

  /**
   * The loop over the channels. `filter[ch]` is the value of filter_enabled when channel ch reads it: the command
   * thread may change the global between two channels.
   */
  method ProcessOnArm(dft: Dft, data: array<Sample>, n: nat, channels: nat, filter: seq<bool>)
    requires n > 0 && channels > 0 && Sized(dft, n) && n * channels <= data.Length && |filter| == channels
    modifies data
    ensures data[..] == Processed(dft, old(data[..]), n, channels, filter)
  {
    ghost var before := data[..];
    for ch := 0 to channels
      invariant data[n * channels..] == before[n * channels..]
      invariant forall c :: 0 <= c < channels ==>
        Channel(data[..], n, channels, c) == ChannelAfter(dft, before, n, channels, filter, ch, c)
    {
      var input := Gather(data, n, channels, ch);
      var spectrum := dft.forward(input);
      if filter[ch] {
        spectrum := ClearBins(spectrum);
      }
      var output := dft.inverse(spectrum);
      Scatter(dft, data, n, channels, ch, output);
    }
    ghost var goal := Processed(dft, before, n, channels, filter);
    forall c | 0 <= c < channels
      ensures Channel(data[..], n, channels, c) == Channel(goal, n, channels, c)
    {
      ProcessedChannel(dft, before, n, channels, filter, c);
    }
    assert data[..][n * channels..] == data[n * channels..];
    ChannelsDetermine(data[..], goal, n, channels);
  }

  /** Channel c once the channels below ch have been processed. */
  ghost function ChannelAfter(
      dft: Dft, before: seq<Sample>, n: nat, channels: nat, filter: seq<bool>, ch: nat, c: nat)
    : seq<Sample>
    requires n > 0 && Sized(dft, n) && c < channels == |filter| && n * channels <= |before|
  {
    if c < ch then Transform(dft, n, filter[c], Channel(before, n, channels, c)) else Channel(before, n, channels, c)
  }

  method Gather(data: array<Sample>, n: nat, channels: nat, ch: nat) returns (input: seq<real>)
    requires ch < channels && n * channels <= data.Length
    ensures input == Reals(Channel(data[..], n, channels, ch))
  {
    var a := new real[n];
    for i := 0 to n
      invariant forall j :: 0 <= j < i ==> a[j] == Channel(data[..], n, channels, ch)[j] as real
    {
      IndexBounds(i, n, channels, ch);
      a[i] := data[i * channels + ch] as real;
    }
    input := a[..];
  }

  method ClearBins(spectrum: seq<Complex>) returns (r: seq<Complex>)
    ensures r == LowPass(spectrum)
  {
    var a := new Complex[|spectrum|](i requires 0 <= i < |spectrum| => spectrum[i]);
    for i := 0 to |spectrum|
      invariant forall j :: 0 <= j < i ==> a[j] == LowPass(spectrum)[j]
      invariant forall j :: i <= j < |spectrum| ==> a[j] == spectrum[j]
    {
      var freq := i * SAMPLE_RATE / NUM_FRAMES;
      if freq >= CUTOFF {
        a[i] := Complex(0.0, 0.0);
      }
    }
    r := a[..];
  }

  /** Writing one channel back touches that channel and nothing else. */
  method Scatter(dft: Dft, data: array<Sample>, n: nat, channels: nat, ch: nat, output: seq<real>)
    requires n > 0 && ch < channels && n * channels <= data.Length && |output| == n
    modifies data
    ensures data[n * channels..] == old(data[n * channels..])
    ensures forall c :: 0 <= c < channels ==>
      Channel(data[..], n, channels, c) ==
      if c == ch then WrittenBack(dft, output, n) else Channel(old(data[..]), n, channels, c)
  {
    ghost var before := data[..];
    ghost var written := WrittenBack(dft, output, n);
    for i := 0 to n
      invariant data[n * channels..] == before[n * channels..]
      invariant forall c :: 0 <= c < channels && c != ch ==>
        Channel(data[..], n, channels, c) == Channel(before, n, channels, c)
      invariant forall j :: 0 <= j < i ==> Channel(data[..], n, channels, ch)[j] == written[j]
    {
      IndexBounds(i, n, channels, ch);
      ghost var now := data[..];
      data[i * channels + ch] := WriteBack(dft, output[i], n);
      assert data[..] == now[i * channels + ch := written[i]];
      forall c | 0 <= c < channels
        ensures Channel(data[..], n, channels, c) ==
          if c == ch then Channel(now, n, channels, c)[i := written[i]] else Channel(now, n, channels, c)
      {
        WriteOne(now, n, channels, ch, i, written[i], c);
      }
    }
  }
}
