/** The converter behind the sound device: partial frames are carried between writes, samples
    are decoded, and the resampler's frames go out as 16-bit stereo.
  */
module SoundFormat {
  import opened Bytes
  import opened Outcomes
  import opened Resampling

  datatype Sample = U8 | S16

  datatype Format = Format(rate: nat, sample: Sample, channels: nat)

  predicate FormatOk(f: Format) {
    f.rate <= U32_MAX && (f.channels == 1 || f.channels == 2)
  }

  function SampleBytes(s: Sample): nat {
    if s == U8 then 1 else 2
  }

  function FrameSize(f: Format): (n: nat)
    requires FormatOk(f)
    ensures 0 < n <= 4
  {
    if f.channels == 1 then SampleBytes(f.sample) else SampleBytes(f.sample) + SampleBytes(f.sample)
  }

  function DecodeSample(s: Sample, bytes: seq<Byte>): (v: int)
    requires |bytes| == SampleBytes(s)
    ensures Sample16(v)
  {
    if s == U8 then (bytes[0] as int - 128) * 256
    else
      var v := bytes[0] as int + 256 * bytes[1] as int;
      if v < 32768 then v else v - 65536
  }

  /** Mono plays on both channels. */
  function DecodeFrame(f: Format, bytes: seq<Byte>): (r: Frame)
    requires FormatOk(f) && |bytes| == FrameSize(f)
    ensures FrameOk(r)
  {
    var size := SampleBytes(f.sample);
    var left := DecodeSample(f.sample, bytes[..size]);
    Frame(left, if f.channels == 2 then DecodeSample(f.sample, bytes[size..]) else left)
  }

  function EncodeSample(v: int): (r: seq<Byte>)
    requires Sample16(v)
    ensures |r| == 2
  {
    [((v % 65536) % 256) as Byte, ((v % 65536) / 256) as Byte]
  }

  /** 16-bit samples survive: what the card reads is the frame. */
  lemma SampleRoundTrip(v: int)
    requires Sample16(v)
    ensures DecodeSample(S16, EncodeSample(v)) == v
  {
  }

  function EncodeFrame(f: Frame): (r: seq<Byte>)
    requires FrameOk(f)
    ensures |r| == 4
  {
    EncodeSample(f.left) + EncodeSample(f.right)
  }

  /** A signed sample, low byte first; an unsigned byte with 128 for silence. */
  ghost predicate Reads(s: Sample, b0: Byte, b1: Byte, v: int) {
    if s == U8 then v == 256 * (b0 as int - 128)
    else -32768 <= v < 32768 && (v == b0 as int + 256 * b1 as int || v == b0 as int + 256 * b1 as int - 65536)
  }

  /** Which bytes hold which channel: the left one first, a single one for both. */
  lemma FrameBytes(f: Format, bytes: seq<Byte>)
    requires FormatOk(f) && |bytes| == FrameSize(f)
    ensures FrameSize(f) == f.channels * (if f.sample == U8 then 1 else 2)
    ensures var r := DecodeFrame(f, bytes);
      && (f.channels == 1 ==> r.left == r.right)
      && (f.sample == U8 ==> Reads(U8, bytes[0], 0, r.left) && (f.channels == 2 ==> Reads(U8, bytes[1], 0, r.right)))
      && (f.sample == S16 ==>
            Reads(S16, bytes[0], bytes[1], r.left) && (f.channels == 2 ==> Reads(S16, bytes[2], bytes[3], r.right)))
  {
  }

  /** What goes to the card: both channels as signed samples, the left one first, low bytes first. */
  lemma FrameWritten(f: Frame)
    requires FrameOk(f)
    ensures var r := EncodeFrame(f); Reads(S16, r[0], r[1], f.left) && Reads(S16, r[2], r[3], f.right)
    ensures forall rate: nat :: rate <= U32_MAX ==> DecodeFrame(Format(rate, S16, 2), EncodeFrame(f)) == f
  {
    SampleRoundTrip(f.left);
    SampleRoundTrip(f.right);
    assert EncodeFrame(f)[..2] == EncodeSample(f.left) && EncodeFrame(f)[2..] == EncodeSample(f.right);
  }

  ghost predicate AllOk(fs: seq<Frame>) {
    forall i :: 0 <= i < |fs| ==> FrameOk(fs[i])
  }

  function Encoded(fs: seq<Frame>): seq<Byte>
    requires AllOk(fs)
  {
    if fs == [] then [] else Encoded(fs[..|fs| - 1]) + EncodeFrame(fs[|fs| - 1])
  }

  // ---- whole frames of a stream of bytes ---------------------------------------------------------------

  function Frames(f: Format, s: seq<Byte>): (r: seq<Frame>)
    requires FormatOk(f)
    ensures AllOk(r)
    decreases |s|
  {
    if |s| < FrameSize(f) then [] else [DecodeFrame(f, s[..FrameSize(f)])] + Frames(f, s[FrameSize(f)..])
  }

  /** The bytes after the last whole frame. */
  function Tail(f: Format, s: seq<Byte>): (r: seq<Byte>)
    requires FormatOk(f)
    ensures |r| < FrameSize(f)
    decreases |s|
  {
    if |s| < FrameSize(f) then s else Tail(f, s[FrameSize(f)..])
  }

  /** Bytes that complete a frame add that frame. */
  lemma {:induction false} FrameCompleted(f: Format, s: seq<Byte>, chunk: seq<Byte>)
    requires FormatOk(f) && |Tail(f, s)| + |chunk| == FrameSize(f)
    ensures Frames(f, s + chunk) == Frames(f, s) + [DecodeFrame(f, Tail(f, s) + chunk)] && Tail(f, s + chunk) == []
    decreases |s|
  {
    var size := FrameSize(f);
    var all := s + chunk;
    if |s| < size {
      assert all[..size] == all && all[size..] == [];
    } else {
      assert all[..size] == s[..size] && all[size..] == s[size..] + chunk;
      FrameCompleted(f, s[size..], chunk);
    }
  }

  /** Fewer leave the frames as they were. */
  lemma {:induction false} BytesCarried(f: Format, s: seq<Byte>, chunk: seq<Byte>)
    requires FormatOk(f) && |Tail(f, s)| + |chunk| < FrameSize(f)
    ensures Frames(f, s + chunk) == Frames(f, s) && Tail(f, s + chunk) == Tail(f, s) + chunk
    decreases |s|
  {
    var size := FrameSize(f);
    var all := s + chunk;
    if |s| >= size {
      assert all[..size] == s[..size] && all[size..] == s[size..] + chunk;
      BytesCarried(f, s[size..], chunk);
    }
  }

  // ---- the converter --------------------------------------------------------------------------------------

  class Converter {
    const format: Format
    const cardRate: nat
    /** Null when the card plays the format's own rate. */
    const resampler: Resampler?
    /** A partial frame waiting for the rest. */
    var carry: seq<Byte>
    /** All bytes taken, and all frames given, since the start. */
    ghost var stream: seq<Byte>
    ghost var outs: seq<Frame>

    ghost predicate Shape()
      reads this
    {
      && FormatOk(format) && carry == Tail(format, stream) && AllOk(outs)
      && (resampler == null <==> format.rate == cardRate)
    }

    /** What came out so far is what the reference stream of the bytes taken starts with. */
    ghost predicate Valid()
      reads this, resampler
    {
      && Shape()
      && if resampler == null then outs == Frames(format, stream)
         else
           && resampler.Valid() && resampler.step == StepOf(format.rate, cardRate)
           && resampler.inputs == Frames(format, stream) && resampler.made == |outs|
           && Reference(Frames(format, stream), resampler.step, outs)
    }

    /** Nothing more can come out of the bytes taken. */
    ghost predicate Drained()
      reads this, resampler
    {
      FormatOk(format) && (resampler != null ==> Dry(Frames(format, stream), resampler.step, outs))
    }

    constructor (format: Format, cardRate: nat)
      requires FormatOk(format) && cardRate <= U32_MAX
      ensures Valid() && stream == [] && outs == [] && this.format == format && this.cardRate == cardRate
      ensures (resampler == null <==> format.rate == cardRate) && (resampler != null ==> fresh(resampler))
    {
      this.format, this.cardRate, carry, stream, outs := format, cardRate, [], [], [];
      if format.rate == cardRate {
        resampler := null;
      } else {
        resampler := new Resampler(format.rate, cardRate);
      }
      new;
    }

    /** The next whole input frame, completing a carried one first. */
    method NextFrame(input: seq<Byte>, consumed: nat) returns (r: Option<Frame>, consumed': nat)
      requires Shape() && consumed <= |input|
      modifies this`carry, this`stream
      ensures Shape() && consumed <= consumed' <= |input|
      ensures r.None? ==> consumed' == consumed && carry == old(carry) && stream == old(stream)
      ensures r.None? ==> |carry| + (|input| - consumed) < FrameSize(format)
      ensures r.Some? ==> consumed' > consumed && stream == old(stream) + input[consumed..consumed'] && FrameOk(r.value)
      ensures r.Some? ==> Frames(format, stream) == Frames(format, old(stream)) + [r.value]
    {
      var size := FrameSize(format);
      var needed := size - |carry|;
      if |input| - consumed < needed {
        return None, consumed;
      }
      consumed' := consumed + needed;
      ghost var chunk := input[consumed..consumed'];
      FrameCompleted(format, stream, chunk);
      r := Some(DecodeFrame(format, carry + input[consumed..consumed']));
      carry := [];
      stream := stream + chunk;
    }

    /** One turn of the conversion loop: a frame comes out, or an input frame goes in, or neither
        is possible. */
    method Turn(input: seq<Byte>, consumed: nat) returns (r: Option<Frame>, consumed': nat, stuck: bool)
      requires Valid() && consumed <= |input|
      modifies this`carry, this`stream, this`outs, resampler
      ensures Valid() && consumed <= consumed' <= |input| && stream == old(stream) + input[consumed..consumed']
      ensures r.Some? ==> FrameOk(r.value) && outs == old(outs) + [r.value] && !stuck
      ensures r.None? ==> outs == old(outs)
      ensures r.None? && !stuck ==> consumed' > consumed
      ensures stuck ==> consumed' == consumed && Drained() && |carry| + (|input| - consumed) < FrameSize(format)
    {
      if resampler != null {
        r, consumed', stuck := TurnResampled(input, consumed);
      } else {
        r, consumed' := NextFrame(input, consumed);
        stuck := r.None?;
        assert stuck ==> old(stream) == old(stream) + input[consumed..consumed'];
        if r.Some? {
          outs := outs + [r.value];
        }
      }
    }

    method TurnResampled(input: seq<Byte>, consumed: nat) returns (r: Option<Frame>, consumed': nat, stuck: bool)
      requires Valid() && consumed <= |input| && resampler != null
      modifies this`carry, this`stream, this`outs, resampler
      ensures Valid() && consumed <= consumed' <= |input| && stream == old(stream) + input[consumed..consumed']
      ensures r.Some? ==> FrameOk(r.value) && outs == old(outs) + [r.value] && !stuck
      ensures r.None? ==> outs == old(outs)
      ensures r.None? && !stuck ==> consumed' > consumed
      ensures stuck ==> consumed' == consumed && Drained() && |carry| + (|input| - consumed) < FrameSize(format)
    {
      consumed', stuck := consumed, false;
      assert input[consumed..consumed] == [];
      r := resampler.Produce();
      if r.Some? {
        outs := outs + [r.value];
        return;
      }
      var next;
      next, consumed' := NextFrame(input, consumed);
      if next.None? {
        stuck := true;
        return;
      }
      resampler.Feed(next.value);
      ReferenceGrows(Frames(format, old(stream)), [next.value], resampler.step, outs);
    }

    /** Convert as much of `input` as fits in `output` as whole frames. What comes out continues
        the reference stream; unless the room is used up, all input is taken and nothing more can
        come out of it. */
    method Convert(input: seq<Byte>, output: array<Byte>) returns (consumed: nat, produced: nat)
      requires Valid()
      modifies this`carry, this`stream, this`outs, resampler, output
      ensures Valid() && consumed <= |input| && produced <= output.Length && stream == old(stream) + input[..consumed]
      ensures old(outs) <= outs && Emitted(output[..produced], outs[|old(outs)|..])
      ensures output[produced..] == old(output[produced..]) && produced % 4 == 0
      ensures output.Length - produced >= 4 ==> consumed == |input| && Drained()
    {
      consumed, produced := Fill(input, output);
      if |carry| + (|input| - consumed) < FrameSize(format) {
        assert input[..consumed] + input[consumed..] == input[..|input|];
        Keep(input, consumed);
        consumed := |input|;
      }
    }

    /** The loop: until the room or the whole frames of the input are used up. */
    method Fill(input: seq<Byte>, output: array<Byte>) returns (consumed: nat, produced: nat)
      requires Valid()
      modifies this`carry, this`stream, this`outs, resampler, output
      ensures Valid() && consumed <= |input| && produced <= output.Length && stream == old(stream) + input[..consumed]
      ensures old(outs) <= outs && Emitted(output[..produced], outs[|old(outs)|..])
      ensures output[produced..] == old(output[produced..]) && produced % 4 == 0
      ensures output.Length - produced >= 4 ==> Drained() && |carry| + (|input| - consumed) < FrameSize(format)
    {
      consumed, produced := 0, 0;
      var stuck := false;
      NothingEmitted();
      while output.Length - produced >= 4 && !stuck
        invariant Valid() && consumed <= |input| && produced <= output.Length
        invariant stream == old(stream) + input[..consumed]
        invariant old(outs) <= outs && Emitted(output[..produced], outs[|old(outs)|..])
        invariant output[produced..] == old(output[produced..]) && produced % 4 == 0
        invariant stuck ==> Drained() && |carry| + (|input| - consumed) < FrameSize(format)
        decreases !stuck, |input| - consumed + output.Length - produced
      {
        ghost var at := consumed;
        consumed, produced, stuck := TurnOut(input, consumed, output, produced, old(outs));
        Slices(old(stream), input, at, consumed);
      }
    }

    /** A turn that writes what comes out. */
    method TurnOut(input: seq<Byte>, consumed: nat, output: array<Byte>, produced: nat, ghost before: seq<Frame>)
      returns (consumed': nat, produced': nat, stuck: bool)
      requires Valid() && consumed <= |input| && produced + 4 <= output.Length
      requires before <= outs && Emitted(output[..produced], outs[|before|..])
      modifies this`carry, this`stream, this`outs, resampler, output
      ensures Valid() && consumed <= consumed' <= |input| && produced <= produced' <= output.Length
      ensures stream == old(stream) + input[consumed..consumed']
      ensures before <= outs && Emitted(output[..produced'], outs[|before|..])
      ensures output[produced'..] == old(output[produced'..])
      ensures (stuck || consumed' > consumed || produced' > produced)
      ensures (produced' == produced || produced' == produced + 4)
      ensures stuck ==> Drained() && |carry| + (|input| - consumed') < FrameSize(format)
    {
      var frame;
      frame, consumed', stuck := Turn(input, consumed);
      produced' := produced;
      if frame.Some? {
        ghost var written := output[..produced];
        Put(output, produced, EncodeFrame(frame.value));
        produced' := produced + 4;
        assert outs[|before|..] == old(outs)[|before|..] + [frame.value];
        FrameEmitted(written, old(outs)[|before|..], frame.value);
      }
    }

    /** Bytes that make no whole frame wait in the carry. */
    method Keep(input: seq<Byte>, consumed: nat)
      requires Valid() && consumed <= |input| && |carry| + (|input| - consumed) < FrameSize(format)
      modifies this`carry, this`stream
      ensures Valid() && stream == old(stream) + input[consumed..] && (old(Drained()) ==> Drained())
    {
      BytesCarried(format, stream, input[consumed..]);
      carry := carry + input[consumed..];
      stream := stream + input[consumed..];
    }
  }

  method Put(output: array<Byte>, at: nat, bytes: seq<Byte>)
    requires |bytes| == 4 && at + 4 <= output.Length
    modifies output
    ensures output[..at + 4] == old(output[..at]) + bytes && output[at + 4..] == old(output[at + 4..])
  {
    output[at], output[at + 1] := bytes[0], bytes[1];
    output[at + 2], output[at + 3] := bytes[2], bytes[3];
  }

  lemma Slices(stream: seq<Byte>, input: seq<Byte>, a: nat, b: nat)
    requires a <= b <= |input|
    ensures stream + input[..a] + input[a..b] == stream + input[..b]
  {
    assert input[..a] + input[a..b] == input[..b];
  }

  /** The bytes are those of the frames. */
  ghost predicate Emitted(bytes: seq<Byte>, fs: seq<Frame>) {
    AllOk(fs) && bytes == Encoded(fs)
  }

  lemma NothingEmitted()
    ensures Emitted([], [])
  {
  }

  lemma FrameEmitted(bytes: seq<Byte>, fs: seq<Frame>, f: Frame)
    requires Emitted(bytes, fs) && FrameOk(f)
    ensures Emitted(bytes + EncodeFrame(f), fs + [f])
  {
    assert (fs + [f])[..|fs|] == fs;
  }

  lemma {:induction false} BothEmitted(a: seq<Byte>, f: seq<Frame>, b: seq<Byte>, g: seq<Frame>)
    requires Emitted(a, f) && Emitted(b, g)
    ensures Emitted(a + b, f + g)
    decreases |g|
  {
    if g == [] {
      assert f + g == f && a + b == a;
    } else {
      var (h, last) := (g[..|g| - 1], g[|g| - 1]);
      BothEmitted(a, f, Encoded(h), h);
      FrameEmitted(a + Encoded(h), f + h, last);
      assert f + g == f + h + [last] && a + b == a + Encoded(h) + EncodeFrame(last);
    }
  }

  // ---- how the writes are cut does not matter --------------------------------------------------------------

  lemma {:induction false} FramesPrefix(f: Format, s: seq<Byte>, more: seq<Byte>)
    requires FormatOk(f)
    ensures Frames(f, s) <= Frames(f, s + more)
    decreases |s|
  {
    var size := FrameSize(f);
    if |s| >= size {
      assert (s + more)[..size] == s[..size] && (s + more)[size..] == s[size..] + more;
      FramesPrefix(f, s[size..], more);
    }
  }

  /** Two converters of one format, the bytes one took a prefix of those the other took, however
      they were cut up: what came out of one is a prefix of what came out of the other. A drained
      converter is never behind one that took no more; so if they took the same and both are
      drained, the same came out. */
  lemma CutsDoNotMatter(a: Converter, b: Converter)
    requires a.Valid() && b.Valid() && a.format == b.format && a.cardRate == b.cardRate && a.stream <= b.stream
    ensures a.outs <= b.outs || b.outs <= a.outs
    ensures b.Drained() ==> a.outs <= b.outs
    ensures a.stream == b.stream && a.Drained() ==> b.outs <= a.outs
    ensures a.stream == b.stream && a.Drained() && b.Drained() ==> a.outs == b.outs
  {
    var more := b.stream[|a.stream|..];
    assert b.stream == a.stream + more;
    FramesPrefix(a.format, a.stream, more);
    var (fa, fb) := (Frames(a.format, a.stream), Frames(a.format, b.stream));
    if a.resampler != null {
      var step := a.resampler.step;
      assert fb == fa + fb[|fa|..];
      ReferenceGrows(fa, fb[|fa|..], step, a.outs);
      if |a.outs| <= |b.outs| {
        OneReference(fb, step, a.outs, b.outs);
      } else {
        OneReference(fb, step, b.outs, a.outs);
      }
    }
  }
}
