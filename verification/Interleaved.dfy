/** Interleaved 16-bit audio: sample i of channel ch stands at index i * channels + ch. */
module Interleaved {
  import opened Common

  /** The frames that the audio thread reads at a time. */
  const NUM_FRAMES: nat := 256

  type Sample = v: int | -0x8000 <= v < 0x8000

  lemma IndexInRange(i: nat, frames: nat, channels: nat, ch: nat)
    requires i < frames && ch < channels
    ensures 0 <= i * channels + ch < frames * channels
  {
    assert frames * channels == (frames - 1 - i) * channels + i * channels + channels;
  }

  /** Channel `ch` of `frames` interleaved frames. */
  function Channel(data: seq<Sample>, frames: nat, channels: nat, ch: nat): (r: seq<Sample>)
    requires ch < channels && frames * channels <= |data|
    ensures |r| == frames
  {
    seq(frames, i requires 0 <= i < frames => IndexInRange(i, frames, channels, ch); data[i * channels + ch])
  }

  /** The index determines the frame and the channel. */
  lemma IndexBounds(i: nat, n: nat, channels: nat, ch: nat)
    requires i < n && ch < channels
    ensures 0 <= i * channels + ch < n * channels
    ensures (i * channels + ch) / channels == i && (i * channels + ch) % channels == ch
  {
    Multiples(channels, n - i);
    Distribute(channels, n, i);
    DivMod(channels, i * channels + ch, i, ch);
  }

  /** Every index below the end of the frames is one of them. */
  lemma IndexParts(k: nat, n: nat, channels: nat)
    requires channels > 0 && k < n * channels
    ensures 0 <= k / channels < n && k == (k / channels) * channels + k % channels
  {
    if k / channels >= n {
      Distribute(channels, k / channels, n);
      if k / channels > n { Multiples(channels, k / channels - n); }
      assert false;
    }
  }

  /** So every sample of the frames is in one channel, at one place. */
  lemma SampleInChannel(data: seq<Sample>, k: nat, n: nat, channels: nat)
    requires channels > 0 && k < n * channels <= |data|
    ensures k / channels < n && data[k] == Channel(data, n, channels, k % channels)[k / channels]
  {
    IndexParts(k, n, channels);
  }

  lemma SameIndex(i: nat, j: nat, channels: nat, c: nat, ch: nat)
    requires c < channels && ch < channels && i * channels + c == j * channels + ch
    ensures i == j && c == ch
  {
    IndexBounds(i, i + 1, channels, c);
    IndexBounds(j, j + 1, channels, ch);
  }

  /** Writing one sample of one channel leaves the other channels and the rest of the buffer alone. */
  lemma WriteOne(data: seq<Sample>, n: nat, channels: nat, ch: nat, i: nat, v: Sample, c: nat)
    requires i < n && ch < channels && c < channels && n * channels <= |data|
    requires i * channels + ch < n * channels
    ensures var after := data[i * channels + ch := v];
      && Channel(after, n, channels, c) ==
         (if c == ch then Channel(data, n, channels, c)[i := v] else Channel(data, n, channels, c))
      && after[n * channels..] == data[n * channels..]
  {
    var after := data[i * channels + ch := v];
    forall j | 0 <= j < n
      ensures Channel(after, n, channels, c)[j] == if c == ch && j == i then v else Channel(data, n, channels, c)[j]
    {
      IndexBounds(j, n, channels, c);
      if j * channels + c == i * channels + ch { SameIndex(j, i, channels, c, ch); }
    }
  }

  /** A buffer is determined by its channels and what follows them. */
  lemma ChannelsDetermine(a: seq<Sample>, b: seq<Sample>, n: nat, channels: nat)
    requires channels > 0 && n * channels <= |a| == |b|
    requires forall c :: 0 <= c < channels ==> Channel(a, n, channels, c) == Channel(b, n, channels, c)
    requires a[n * channels..] == b[n * channels..]
    ensures a == b
  {
    forall k | 0 <= k < |a|
      ensures a[k] == b[k]
    {
      if k < n * channels {
        IndexParts(k, n, channels);
        var i, c := k / channels, k % channels;
        assert Channel(a, n, channels, c)[i] == Channel(b, n, channels, c)[i];
      } else {
        assert a[k] == a[n * channels..][k - n * channels];
      }
    }
  }
}
