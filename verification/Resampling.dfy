/** Sample formats and rates: bytes written to the device become frames at the card's rate.

    The reference stream: output frame `k` lies at `k * step` in 32.32 fixed point and mixes
    input frame `k * step / 2^32` with its successor. However the input is cut into writes and
    whatever room each call has, what comes out is a prefix of it.
  */
module Resampling {
  import opened Bytes
  import opened Outcomes

  const ONE: nat := 0x1_0000_0000

  /** Two 16-bit samples. */
  datatype Frame = Frame(left: int, right: int)

  predicate Sample16(s: int) {
    -32768 <= s < 32768
  }

  predicate FrameOk(f: Frame) {
    Sample16(f.left) && Sample16(f.right)
  }

  // ---- mixing two samples -------------------------------------------------------------------------

  /** `from + ((to - from) * fraction >> 32)`; the shift rounds down. */
  function Mix(from: int, to: int, fraction: nat): int {
    from + (to - from) * fraction / ONE
  }

  /** The product fits in 63 bits, and the result lies between the two samples: the cast back to
      16 bits loses nothing. */
  lemma MixBetween(from: int, to: int, fraction: nat)
    requires Sample16(from) && Sample16(to) && fraction < ONE
    ensures -0x1_0000_0000_0000 < (to - from) * fraction < 0x1_0000_0000_0000
    ensures from <= to ==> from <= Mix(from, to, fraction) <= to
    ensures to <= from ==> to <= Mix(from, to, fraction) <= from
    ensures Sample16(Mix(from, to, fraction))
  {
    var d := to - from;
    if d >= 0 {
      Scale(d, fraction);
    } else {
      Scale(-d, fraction);
      assert d * fraction == -(-d * fraction);
    }
  }

  /** It is the weighted mean of the two, rounded down: `to` weighs `fraction`, `from` the rest. */
  lemma MixIsMean(from: int, to: int, fraction: nat)
    requires fraction < ONE
    ensures var mean := from * (ONE - fraction) + to * fraction;
            ONE * Mix(from, to, fraction) <= mean < ONE * Mix(from, to, fraction) + ONE
    ensures Mix(from, to, 0) == from
  {
    var (d, q) := ((to - from) * fraction, (to - from) * fraction / ONE);
    assert from * (ONE - fraction) + to * fraction == from * ONE + d by {
      Weighted(from, to, fraction);
    }
    assert ONE * q <= d < ONE * q + ONE;
  }

  lemma Weighted(from: int, to: int, fraction: int)
    ensures from * (ONE - fraction) + to * fraction == from * ONE + (to - from) * fraction
  {
  }

  lemma Scale(d: nat, fraction: nat)
    requires d < 65536 && fraction < ONE
    ensures 0 <= d * fraction <= d * ONE && d * fraction < 0x1_0000_0000_0000
  {
    assert d * ONE - d * fraction == d * (ONE - fraction);
  }

  function MixFrames(a: Frame, b: Frame, fraction: nat): Frame {
    Frame(Mix(a.left, b.left, fraction), Mix(a.right, b.right, fraction))
  }

  // ---- the reference stream ------------------------------------------------------------------------

  /** The input frame before output frame `k`. */
  function Before(k: nat, step: nat): nat {
    k * step / ONE
  }

  /** Output frame `k` of the reference stream; it needs the frame after `Before`. */
  function Interpolated(inputs: seq<Frame>, step: nat, k: nat): Frame
    requires Before(k, step) + 1 < |inputs|
  {
    MixFrames(inputs[Before(k, step)], inputs[Before(k, step) + 1], k * step % ONE)
  }

  ghost predicate Reference(inputs: seq<Frame>, step: nat, outs: seq<Frame>) {
    forall k: nat :: k < |outs| ==> Before(k, step) + 1 < |inputs| && outs[k] == Interpolated(inputs, step, k)
  }

  /** No further output frame can be made of the inputs. */
  ghost predicate Dry(inputs: seq<Frame>, step: nat, outs: seq<Frame>) {
    Before(|outs|, step) + 1 >= |inputs|
  }

  /** More input does not change what came out. */
  lemma ReferenceGrows(inputs: seq<Frame>, more: seq<Frame>, step: nat, outs: seq<Frame>)
    requires Reference(inputs, step, outs)
    ensures Reference(inputs + more, step, outs)
  {
    forall k: nat | k < |outs|
      ensures Before(k, step) + 1 < |inputs + more| && outs[k] == Interpolated(inputs + more, step, k)
    {
      assert outs[k] == Interpolated(inputs, step, k);
    }
  }

  /** Of two outputs for one input, one is a prefix of the other; if both are dry they are equal. */
  lemma OneReference(inputs: seq<Frame>, step: nat, a: seq<Frame>, b: seq<Frame>)
    requires Reference(inputs, step, a) && Reference(inputs, step, b) && |a| <= |b|
    ensures a <= b && (Dry(inputs, step, a) ==> a == b)
  {
    forall k: nat | k < |a|
      ensures a[k] == b[k]
    {
      assert a[k] == Interpolated(inputs, step, k) && b[k] == Interpolated(inputs, step, k);
    }
    if |a| < |b| {
      var k: nat := |a|;
      assert Before(k, step) + 1 < |inputs| && b[k] == Interpolated(inputs, step, k);
    }
  }

  // ---- the resampler ---------------------------------------------------------------------------------

  /** Input frames per output frame, 32.32. */
  function StepOf(inputRate: nat, outputRate: nat): nat {
    inputRate * ONE / (if outputRate == 0 then 1 else outputRate)
  }

  class Resampler {
    const step: nat
    var position: nat
    var previous: Option<Frame>
    var next: Option<Frame>
    /** The frames fed, and how many came out. */
    ghost var inputs: seq<Frame>
    ghost var made: nat

    /** The left neighbour is frame `base`, the position counts from there. */
    ghost predicate At(base: nat)
      reads this
    {
      && base < |inputs| <= base + 2 && previous == Some(inputs[base])
      && next == (if |inputs| == base + 2 then Some(inputs[base + 1]) else None)
      && made * step == base * ONE + position
    }

    ghost predicate Valid()
      reads this
    {
      && step <= U64_MAX - U32_MAX && (forall i :: 0 <= i < |inputs| ==> FrameOk(inputs[i]))
      && if inputs == [] then previous.None? && next.None? && position == 0 && made == 0
         else exists base: nat :: At(base)
    }

    constructor (inputRate: nat, outputRate: nat)
      requires inputRate <= U32_MAX && outputRate <= U32_MAX
      ensures Valid() && inputs == [] && made == 0
      ensures step == StepOf(inputRate, outputRate)
    {
      var divisor := if outputRate == 0 then 1 else outputRate;
      step := inputRate * ONE / divisor;
      position, previous, next, inputs, made := 0, None, None, [], 0;
      new;
      StepFits(inputRate, divisor);
    }

    predicate WantsInput()
      reads this
    {
      next.None?
    }

    method Feed(frame: Frame)
      requires Valid() && WantsInput() && FrameOk(frame)
      modifies this`previous, this`next, this`inputs
      ensures Valid() && inputs == old(inputs) + [frame] && made == old(made)
    {
      ghost var base: nat := if inputs == [] then 0 else var b: nat :| At(b); b;
      if previous.None? {
        previous := Some(frame);
      } else {
        next := Some(frame);
      }
      inputs := inputs + [frame];
      assert At(base);
    }

    /** The next output frame of the reference stream, or nothing when its right neighbour has
        not been fed. The sums stay below 2^64. */
    method Produce() returns (r: Option<Frame>)
      requires Valid()
      modifies this`position, this`previous, this`next, this`made
      ensures Valid() && inputs == old(inputs)
      ensures r.Some? ==> Before(old(made), step) + 1 < |inputs| && r.value == Interpolated(inputs, step, old(made))
      ensures r.Some? ==> made == old(made) + 1 && FrameOk(r.value)
      ensures r.None? ==> made == old(made) && Before(made, step) + 1 >= |inputs| && WantsInput()
    {
      if previous.None? {
        return None;
      }
      ghost var base: nat :| At(base);
      Place(made, step, base, position);
      if next.None? {
        return None;
      }
      var (from, to) := (previous.value, next.value);
      if position >= ONE {
        position := position - ONE;
        previous, next := Some(to), None;
        assert At(base + 1);
        return None;
      }
      assert position + step <= U64_MAX;
      r := Some(MixFrames(from, to, position));
      MixBetween(from.left, to.left, position);
      MixBetween(from.right, to.right, position);
      Advance(made, step);
      position := position + step;
      made := made + 1;
      assert At(base);
    }
  }

  lemma StepFits(inputRate: nat, divisor: nat)
    requires inputRate <= U32_MAX && divisor > 0
    ensures inputRate * ONE / divisor <= U64_MAX - U32_MAX
  {
    Quotient(inputRate * ONE, divisor);
  }

  lemma Quotient(n: nat, divisor: nat)
    requires divisor > 0
    ensures n / divisor <= n
  {
    AtLeast(n / divisor, divisor);
  }

  lemma AtLeast(q: nat, d: nat)
    requires d > 0
    ensures q * d >= q
  {
    assert q * d == q + q * (d - 1);
  }

  lemma Advance(made: nat, step: nat)
    ensures (made + 1) * step == made * step + step
  {
  }

  /** Where the position lies, counted from the start. */
  lemma Place(made: nat, step: nat, base: nat, position: nat)
    requires made * step == base * ONE + position
    ensures Before(made, step) == base + position / ONE && made * step % ONE == position % ONE
  {
  }
}
