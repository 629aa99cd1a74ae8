/** The PCM16 side of the voice session codec in hooks/useAudioSession.ts:
    reading inbound bytes as little-endian 16-bit samples and de-interleaving
    them into an audio buffer (`decodeAudioData`), and the capture encoder of
    `onopen` that turns microphone samples into an outbound PCM blob. Sample
    values are exact reals; a sample's float rounding is not modelled. */
module Pcm {
  import opened Wrappers
  import opened Base64

  type Int16 = x: int | -32768 <= x < 32768

  /** Fixed rates of the two audio contexts, and the capture frame length. */
  const InputSampleRate: nat := 16000
  const OutputSampleRate: nat := 24000
  const CaptureFrameLength: nat := 4096
  const CaptureMimeType: string := "audio/pcm;rate=16000"

  // ---------------------------------------------------------------------------
  // Little-endian 16-bit samples

  /** Signed value of the little-endian byte pair (lo, hi). */
  function Int16LE(lo: Byte, hi: Byte): (x: Int16)
    ensures (x + 65536) % 65536 == lo + 256 * hi
    ensures x < 0 <==> hi >= 128
  {
    var u := lo + 256 * hi;
    if u >= 32768 then u - 65536 else u
  }

  /** The two little-endian bytes of a sample (two's complement). */
  function LowByte(x: Int16): Byte { ((x + 65536) % 65536) % 256 }
  function HighByte(x: Int16): Byte { ((x + 65536) % 65536) / 256 }

  /** The bytes of `new Uint8Array(int16.buffer)`, two per sample. */
  function Int16Bytes(xs: seq<Int16>): (b: seq<Byte>)
    ensures |b| == 2 * |xs|
    ensures forall i :: 0 <= i < |xs| ==> Int16LE(b[2 * i], b[2 * i + 1]) == xs[i]
    decreases |xs|
  {
    if |xs| == 0 then []
    else [LowByte(xs[0]), HighByte(xs[0])] + Int16Bytes(xs[1..])
  }

  /** `new Int16Array(bytes.buffer)`; `None` stands for the RangeError thrown
      when the byte length is odd. */
  function Int16Samples(bytes: seq<Byte>): (r: Option<seq<Int16>>)
    ensures r.Some? <==> |bytes| % 2 == 0
    ensures r.Some? ==> |r.value| == |bytes| / 2
  {
    if |bytes| % 2 == 1 then None
    else Some(seq(|bytes| / 2, i requires 0 <= i < |bytes| / 2 => Int16LE(bytes[2 * i], bytes[2 * i + 1])))
  }

  /** Samples written as bytes read back unchanged. */
  lemma Int16RoundTrip(xs: seq<Int16>)
    ensures Int16Samples(Int16Bytes(xs)) == Some(xs)
  {
    var b := Int16Bytes(xs);
    assert |b| % 2 == 0 && |b| / 2 == |xs|;
    var ys := seq(|b| / 2, i requires 0 <= i < |b| / 2 => Int16LE(b[2 * i], b[2 * i + 1]));
    assert Int16Samples(b) == Some(ys);
    forall i | 0 <= i < |xs|
      ensures ys[i] == xs[i]
    {
      assert ys[i] == Int16LE(b[2 * i], b[2 * i + 1]);
    }
    assert ys == xs;
  }

  // ---------------------------------------------------------------------------
  // decodeAudioData

  datatype AudioBuffer = AudioBuffer(sampleRate: nat, frames: nat, channelData: seq<seq<real>>)

  /** `ctx.createBuffer` succeeds only for 1..32 channels, at least one frame
      and a rate in 3000..768000 Hz (otherwise a NotSupportedError, per the
      Web Audio API). */
  predicate CreateBufferAccepts(numChannels: int, frames: int, sampleRate: int)
  {
    1 <= numChannels <= 32 && frames >= 1 && 3000 <= sampleRate <= 768000
  }

  lemma InterleavedIndex(i: nat, c: nat, frames: nat, n: nat, len: nat)
    requires c < n && i < frames && frames == len / n
    ensures i * n + c < len
  {
    assert i * n + c < (i + 1) * n;
    assert (i + 1) * n <= frames * n;
    assert frames * n <= len;
  }

  /** A 16-bit sample scaled by 1/32768 lies in [-1, 1). */
  function Scale(x: Int16): (v: real)
    ensures -1.0 <= v < 1.0
  {
    x as real / 32768.0
  }

  /** Sample `i` of channel `c` of interleaved samples over `n` channels. */
  function SampleAt(samples: seq<Int16>, n: nat, frames: nat, c: nat, i: nat): real
    requires c < n && frames == |samples| / n && i < frames
  {
    InterleavedIndex(i, c, frames, n, |samples|);
    Scale(samples[i * n + c])
  }

  function Deinterleave(samples: seq<Int16>, n: nat, frames: nat, c: nat): (ch: seq<real>)
    requires c < n && frames == |samples| / n
    ensures |ch| == frames
    ensures forall i :: 0 <= i < frames ==> -1.0 <= ch[i] < 1.0
  {
    seq(frames, i requires 0 <= i < frames => SampleAt(samples, n, frames, c, i))
  }

  /** Channel `c`, frame `i` of `ch` is the little-endian 16-bit value at
      bytes `2*(i*n+c)` and `2*(i*n+c)+1` of `data`, divided by 32768. */
  predicate FromInterleavedBytes(data: seq<Byte>, n: nat, frames: nat, ch: seq<seq<real>>)
  {
    forall c, i :: 0 <= c < n && 0 <= i < frames ==>
      && c < |ch| && i < |ch[c]|
      && 2 * (i * n + c) + 1 < |data|
      && ch[c][i] == Int16LE(data[2 * (i * n + c)], data[2 * (i * n + c) + 1]) as real / 32768.0
  }

  /** The de-interleaved channels of `samples`, one per channel index. */
  function Channels(samples: seq<Int16>, n: nat, frames: nat): (chs: seq<seq<real>>)
    requires n >= 1 && frames == |samples| / n
    ensures |chs| == n
    ensures forall c :: 0 <= c < n ==> |chs[c]| == frames && (forall i :: 0 <= i < frames ==> -1.0 <= chs[c][i] < 1.0)
  {
    seq(n, c requires 0 <= c < n => Deinterleave(samples, n, frames, c))
  }

  /** Sample (c, i) comes from the byte pair at `2*(i*n+c)`. */
  lemma SampleBytes(data: seq<Byte>, samples: seq<Int16>, n: nat, frames: nat, c: nat, i: nat)
    requires Int16Samples(data) == Some(samples)
    requires c < n && frames == |samples| / n && i < frames
    ensures 2 * (i * n + c) + 1 < |data|
    ensures SampleAt(samples, n, frames, c, i) == Int16LE(data[2 * (i * n + c)], data[2 * (i * n + c) + 1]) as real / 32768.0
  {
    InterleavedIndex(i, c, frames, n, |samples|);
    var k := i * n + c;
    assert samples[k] == Int16LE(data[2 * k], data[2 * k + 1]);
  }

  /** De-interleaving the samples of `data` reads each sample from its own
      byte pair. */
  lemma ChannelsFromBytes(data: seq<Byte>, samples: seq<Int16>, n: nat, frames: nat)
    requires Int16Samples(data) == Some(samples)
    requires n >= 1 && frames == |samples| / n
    ensures FromInterleavedBytes(data, n, frames, Channels(samples, n, frames))
  {
    var chs := Channels(samples, n, frames);
    forall c, i | 0 <= c < n && 0 <= i < frames
      ensures 2 * (i * n + c) + 1 < |data|
      ensures chs[c][i] == Int16LE(data[2 * (i * n + c)], data[2 * (i * n + c) + 1]) as real / 32768.0
    {
      assert chs[c][i] == SampleAt(samples, n, frames, c, i);
      SampleBytes(data, samples, n, frames, c, i);
    }
  }

  /** `decodeAudioData(data, ctx, sampleRate, numChannels)`: `None` stands for
      the exception it throws (odd byte length, or a buffer `createBuffer`
      refuses); otherwise a buffer of `len/2/numChannels` frames whose sample
      (c, i) is the interleaved 16-bit value at byte `2*(i*numChannels+c)`
      divided by 32768. */
  function DecodeAudioData(data: seq<Byte>, sampleRate: nat, numChannels: nat): (r: Option<AudioBuffer>)
    ensures r.Some? <==>
      |data| % 2 == 0 && numChannels >= 1 && CreateBufferAccepts(numChannels, |data| / 2 / numChannels, sampleRate)
    ensures r.Some? ==>
      && r.value.sampleRate == sampleRate
      && r.value.frames == |data| / 2 / numChannels
      && |r.value.channelData| == numChannels
      && forall c :: 0 <= c < numChannels ==> |r.value.channelData[c]| == r.value.frames
    ensures r.Some? ==>
      forall c, i :: 0 <= c < numChannels && 0 <= i < r.value.frames ==>
        -1.0 <= r.value.channelData[c][i] < 1.0
    ensures r.Some? ==> FromInterleavedBytes(data, numChannels, r.value.frames, r.value.channelData)
  {
    match Int16Samples(data)
    case None => None
    case Some(samples) =>
      if numChannels == 0 then None
      else
        var frames := |samples| / numChannels;
        if !CreateBufferAccepts(numChannels, frames, sampleRate) then None
        else
          ChannelsFromBytes(data, samples, numChannels, frames);
          Some(AudioBuffer(sampleRate, frames, Channels(samples, numChannels, frames)))
  }

  /** The mono chunk of the playback path: an even, non-empty byte length
      gives `n/2` frames, frame `i` being the little-endian value of bytes
      `2i, 2i+1` over 32768; an odd or empty chunk fails. */
  lemma MonoDecode(data: seq<Byte>)
    ensures DecodeAudioData(data, OutputSampleRate, 1).Some? <==> |data| % 2 == 0 && |data| >= 2
    ensures DecodeAudioData(data, OutputSampleRate, 1).Some? ==>
      var buf := DecodeAudioData(data, OutputSampleRate, 1).value;
      && buf.frames == |data| / 2
      && forall i :: 0 <= i < buf.frames ==>
           buf.channelData[0][i] == Int16LE(data[2 * i], data[2 * i + 1]) as real / 32768.0
  {
    if |data| % 2 == 0 && |data| >= 2 {
      var buf := DecodeAudioData(data, OutputSampleRate, 1).value;
      var samples := Int16Samples(data).value;
      forall i | 0 <= i < buf.frames
        ensures buf.channelData[0][i] == Int16LE(data[2 * i], data[2 * i + 1]) as real / 32768.0
      {
        assert buf.channelData[0] == Deinterleave(samples, 1, buf.frames, 0);
        assert buf.channelData[0][i] == SampleAt(samples, 1, buf.frames, 0, i);
        assert i * 1 + 0 == i;
      }
    }
  }

  // ---------------------------------------------------------------------------
  // Capture encoder

  /** Truncation toward zero. */
  function Trunc(x: real): (n: int)
    ensures 0.0 <= x ==> n as real <= x < n as real + 1.0
    ensures x < 0.0 ==> n as real - 1.0 < x <= n as real
  {
    if x >= 0.0 then x.Floor else -((-x).Floor)
  }

  /** The store `int16[i] = v` for a finite `v`: the ToInt16 conversion,
      truncation toward zero and then wrap-around modulo 2^16. */
  function ToInt16(v: real): (x: Int16)
    ensures (x - Trunc(v)) % 65536 == 0
    ensures -32768.0 <= v < 32768.0 ==> x == Trunc(v)
  {
    var m := (Trunc(v) + 32768) % 65536;
    m - 32768
  }

  datatype Blob = Blob(data: string, mimeType: string)

  /** Samples of one capture frame as stored in the Int16Array. */
  function CaptureSamples(input: seq<real>): (xs: seq<Int16>)
    ensures |xs| == |input|
    ensures forall i :: 0 <= i < |input| ==> xs[i] == ToInt16(input[i] * 32768.0)
  {
    seq(|input|, i requires 0 <= i < |input| => ToInt16(input[i] * 32768.0))
  }

  /** `onaudioprocess`: scale by 32768, store as Int16, base64 the bytes and
      tag the blob `audio/pcm;rate=16000`. */
  function CaptureBlob(input: seq<real>): (b: Blob)
    ensures b.mimeType == CaptureMimeType
    ensures |b.data| == 4 * ((2 * |input| + 2) / 3)
  {
    Blob(Encode(Int16Bytes(CaptureSamples(input))), CaptureMimeType)
  }

  /** A receiver that decodes a capture blob gets back exactly the stored
      16-bit samples; samples in [-1, 1) are the truncated `x * 32768` with no
      wrap-around. */
  lemma CaptureRoundTrip(input: seq<real>)
    ensures Decode(CaptureBlob(input).data).Some?
    ensures Int16Samples(Decode(CaptureBlob(input).data).value) == Some(CaptureSamples(input))
    ensures forall i :: 0 <= i < |input| && -1.0 <= input[i] < 1.0 ==>
      CaptureSamples(input)[i] == Trunc(input[i] * 32768.0)
  {
    var xs := CaptureSamples(input);
    DecodeEncode(Int16Bytes(xs));
    Int16RoundTrip(xs);
    forall i | 0 <= i < |input| && -1.0 <= input[i] < 1.0
      ensures xs[i] == Trunc(input[i] * 32768.0)
    {
      assert -32768.0 <= input[i] * 32768.0 < 32768.0;
    }
  }

  /** The encoder does not clamp: a full-scale positive sample 1.0 becomes
      32768, which wraps to the most negative 16-bit value. */
  lemma FullScaleWraps()
    ensures ToInt16(1.0 * 32768.0) == -32768
  {
  }
}
