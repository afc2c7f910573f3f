/** Nanosecond/frame arithmetic shared by the audio code (libobs/util/util_uint64.h, libobs/media-io/audio-io.h). */
module AudioClock {

  const NS_PER_SEC: nat := 1_000_000_000
  const TWO_64: nat := 0x1_0000_0000_0000_0000

  type u64 = x: int | 0 <= x < TWO_64

  /** Arithmetic on `uint64_t` keeps the value modulo 2^64. */
  function Wrap64(x: int): (r: u64)
    ensures 0 <= x < TWO_64 ==> r == x
  {
    x % TWO_64
  }

  /** The portable branch of `util_mul_div64`, every product and sum taken on 64 bits. */
  function MulDiv64(num: u64, mul: u64, div: u64): u64
    requires div > 0
  {
    Wrap64(Wrap64(num / div * mul) + Wrap64(num % div * mul) / div)
  }

  /** The start of `frames` sample frames, rounded down to a whole nanosecond. */
  function FramesToNs(rate: nat, frames: nat): nat
    requires rate > 0
  {
    frames * NS_PER_SEC / rate
  }

  /** The number of whole sample frames in `ns` nanoseconds. */
  function NsToFrames(rate: nat, ns: nat): nat
  {
    ns * rate / NS_PER_SEC
  }

  lemma MulMonotone(a: int, b: int, c: int)
    ensures c >= 0 && a <= b ==> a * c <= b * c
  {
  }

  /** Multiples of a positive number compare like their factors. */
  lemma MulCancel(a: int, b: int, c: int)
    requires c > 0
    ensures a * c < (b + 1) * c ==> a <= b
  {
    MulMonotone(b + 1, a, c);
  }

  /** Division by a positive number, as the two inequalities the proofs below use. */
  lemma DivBounds(a: int, b: int)
    requires b > 0
    ensures a / b * b <= a < (a / b + 1) * b
  {
    assert (a / b + 1) * b == a / b * b + b;
  }

  /** The quotient is the only number that satisfies the two inequalities. */
  lemma DivUnique(a: int, b: int, q: int)
    requires b > 0
    requires q * b <= a < (q + 1) * b
    ensures a / b == q
  {
    DivBounds(a, b);
    MulCancel(a / b, q, b);
    MulCancel(q, a / b, b);
  }

  lemma MulDistributes(a: int, b: int, c: int)
    ensures (a + b) * c == a * c + b * c
  {
  }

  /** Splitting the dividend first and multiplying afterwards loses nothing, as long as the quotient fits in 64 bits. */
  lemma MulDivIsFloor(num: u64, mul: u64, div: u64)
    requires div > 0
    requires div * mul <= TWO_64
    requires num * mul / div < TWO_64
    ensures MulDiv64(num, mul, div) == num * mul / div
  {
    MulDivSplits(num, mul, div);
    ProductBelow(num % div, div, mul);
    QuotientNonNegative(num, div);
    MulMonotone(0, num / div, mul);
    QuotientNonNegative(num % div * mul, div);
  }

  lemma QuotientNonNegative(a: nat, b: nat)
    requires b > 0
    ensures 0 <= a / b
  {
  }

  lemma ProductBelow(a: nat, b: nat, c: nat)
    requires a < b
    ensures a * c <= b * c
    ensures c > 0 ==> a * c < b * c
  {
    MulMonotone(a + 1, b, c);
    MulDistributes(a, 1, c);
  }

  lemma MulDivSplits(num: nat, mul: nat, div: nat)
    requires div > 0
    ensures num * mul / div == num / div * mul + num % div * mul / div
  {
    var q, r := num / div, num % div;
    var t := r * mul / div;
    assert num * mul == (q * mul) * div + r * mul by {
      calc {
        num * mul;
        (q * div + r) * mul;
        { MulDistributes(q * div, r, mul); }
        (q * div) * mul + r * mul;
        (q * mul) * div + r * mul;
      }
    }
    DivBounds(r * mul, div);
    MulDistributes(q * mul, t, div);
    MulDistributes(q * mul, t + 1, div);
    assert q * mul + t + 1 == q * mul + (t + 1);
    DivUnique(num * mul, div, q * mul + t);
  }

  lemma FramesToNsMonotone(rate: nat, a: nat, b: nat)
    requires rate > 0
    requires a <= b
    ensures FramesToNs(rate, a) <= FramesToNs(rate, b)
  {
    DivBounds(a * NS_PER_SEC, rate);
    DivBounds(b * NS_PER_SEC, rate);
    MulCancel(FramesToNs(rate, a), FramesToNs(rate, b), rate);
  }

  /** Rounding down twice loses at most one nanosecond against rounding down once. */
  lemma FramesToNsAdds(rate: nat, a: nat, b: nat)
    requires rate > 0
    ensures FramesToNs(rate, a) + FramesToNs(rate, b)
         <= FramesToNs(rate, a + b)
         <= FramesToNs(rate, a) + FramesToNs(rate, b) + 1
  {
    var qa, qb, q := FramesToNs(rate, a), FramesToNs(rate, b), FramesToNs(rate, a + b);
    DivBounds(a * NS_PER_SEC, rate);
    DivBounds(b * NS_PER_SEC, rate);
    DivBounds((a + b) * NS_PER_SEC, rate);
    MulDistributes(qa, qb, rate);
    MulDistributes(qa + 1, qb + 1, rate);
    assert qa + 1 + (qb + 1) == qa + qb + 1 + 1;
    MulCancel(qa + qb, q, rate);
    MulCancel(q, qa + qb + 1, rate);
  }

  /** Converting a whole number of frames to time and back loses at most one frame, and never gains one. */
  lemma FramesRoundTrip(rate: nat, frames: nat)
    requires 0 < rate <= NS_PER_SEC
    ensures frames - 1 <= NsToFrames(rate, FramesToNs(rate, frames)) <= frames
  {
    var ns := FramesToNs(rate, frames);
    DivBounds(frames * NS_PER_SEC, rate);
    DivBounds(ns * rate, NS_PER_SEC);
    MulDistributes(ns, 1, rate);
  }

  /** The frame count of a duration is the one whose exact start lies within one sample period below it. */
  lemma NsToFramesBounds(rate: nat, ns: nat)
    ensures NsToFrames(rate, ns) * NS_PER_SEC <= ns * rate < (NsToFrames(rate, ns) + 1) * NS_PER_SEC
  {
    DivBounds(ns * rate, NS_PER_SEC);
  }
}
