/**
 * Sample conditioning on the board (esp.cpp:216-241): the capture buffer holds
 * signed 16-bit little-endian samples; each one goes through the (degenerate)
 * high-pass term, the fixed boost of HPF_ALPHA * GAIN_BOOSTER, and a clamp to
 * the int16 range, and is written back into its own two bytes.
 */
module Samples {
  import opened Base

  const MIN_INT16: int := -32768
  const MAX_INT16: int := 32767

  /** GAIN_BOOSTER (esp.cpp:36). */
  const GAIN_BOOSTER: int := 32

  predicate InInt16(v: int) {
    MIN_INT16 <= v <= MAX_INT16
  }

  /**
   * The filter term of esp.cpp:223 before it is scaled by alpha:
   * `last + current - last`, which cancels to the current sample whatever the
   * stored state is.
   */
  function HighPass(prev: int, s: int): (f: int)
    ensures f == s
  {
    prev + s - prev
  }

  /**
   * The boost of esp.cpp:223-226: alpha (0.98) times GAIN_BOOSTER, i.e. the
   * factor 31.36 = 3136 / 100, truncated toward zero as the cast to int32_t
   * truncates.
   */
  function Boost(x: int): (b: int)
    ensures x >= 0 ==> 0 <= b && 100 * b <= 98 * GAIN_BOOSTER * x < 100 * b + 100
    ensures x < 0 ==> b <= 0 && 100 * b - 100 < 98 * GAIN_BOOSTER * x <= 100 * b
  {
    if x >= 0 then (98 * GAIN_BOOSTER * x) / 100 else -((-98 * GAIN_BOOSTER * x) / 100)
  }

  /** The saturating store of esp.cpp:229-240. */
  function Clamp16(x: int): (r: int)
    ensures InInt16(r)
    ensures InInt16(x) ==> r == x
    ensures x > MAX_INT16 ==> r == MAX_INT16
    ensures x < MIN_INT16 ==> r == MIN_INT16
  {
    if x > MAX_INT16 then MAX_INT16 else if x < MIN_INT16 then MIN_INT16 else x
  }

  /** What a raw sample becomes once conditioned. */
  function Conditioned(s: int): int {
    Clamp16(Boost(s))
  }

  /**
   * One iteration of the sample loop as the source writes it, given the stored
   * filter state `prev`: the result lies in the int16 range and does not depend
   * on `prev`.
   */
  function ProcessSample(prev: int, s: int): (r: int)
    ensures InInt16(r)
    ensures r == Conditioned(s)
  {
    Clamp16(Boost(HighPass(prev, s)))
  }

  /** The sample stored little-endian in the byte pair (lo, hi). */
  function SampleOf(lo: Byte, hi: Byte): (v: int)
    ensures InInt16(v)
  {
    var u := lo + 256 * hi;
    if u >= 32768 then u - 65536 else u
  }

  /** The two bytes, low first, that store the int16 value v. */
  function EncodeSample(v: int): (p: (Byte, Byte))
    requires InInt16(v)
    ensures SampleOf(p.0, p.1) == v
  {
    var u := if v < 0 then v + 65536 else v;
    (u % 256, u / 256)
  }

  /** Decoding then encoding a byte pair gives the pair back. */
  lemma EncodeSampleOf(lo: Byte, hi: Byte)
    ensures EncodeSample(SampleOf(lo, hi)) == (lo, hi)
  {
  }

  /** Sample k of a little-endian buffer. */
  function SampleAt(buf: seq<Byte>, k: nat): int
    requires 2 * k + 1 < |buf|
  {
    SampleOf(buf[2 * k], buf[2 * k + 1])
  }

  /**
   * The buffer after the loop of esp.cpp:220-241 has conditioned its first n
   * samples in place: it keeps its length and every byte from 2 * n on.
   */
  function ConditionedFrame(raw: seq<Byte>, n: nat): (r: seq<Byte>)
    requires 2 * n <= |raw|
    ensures |r| == |raw|
    ensures r[2 * n..] == raw[2 * n..]
  {
    if n == 0 then raw
    else
      var prev := ConditionedFrame(raw, n - 1);
      var p := EncodeSample(Conditioned(SampleAt(raw, n - 1)));
      prev[2 * (n - 1) := p.0][2 * (n - 1) + 1 := p.1]
  }

  /** One more iteration of the loop: slot i still holds raw bytes and then gets its conditioned value. */
  lemma ConditionedFrameStep(raw: seq<Byte>, i: nat)
    requires 2 * i + 1 < |raw|
    ensures ConditionedFrame(raw, i)[2 * i] == raw[2 * i]
    ensures ConditionedFrame(raw, i)[2 * i + 1] == raw[2 * i + 1]
    ensures ConditionedFrame(raw, i + 1) ==
      ConditionedFrame(raw, i)[2 * i := EncodeSample(Conditioned(SampleAt(raw, i))).0]
                              [2 * i + 1 := EncodeSample(Conditioned(SampleAt(raw, i))).1]
  {
    var before := ConditionedFrame(raw, i);
    assert before[2 * i..][0] == raw[2 * i..][0];
    assert before[2 * i..][1] == raw[2 * i..][1];
  }

  /** Every conditioned slot holds the conditioned raw sample, with no wrap-around. */
  lemma {:induction false} ConditionedFrameSamples(raw: seq<Byte>, n: nat, k: nat)
    requires 2 * n <= |raw| && k < n
    ensures SampleAt(ConditionedFrame(raw, n), k) == Conditioned(SampleAt(raw, k))
  {
    if k < n - 1 {
      ConditionedFrameSamples(raw, n - 1, k);
    }
  }

  /** The filter state after the loop: the last raw sample, or unchanged if there was none. */
  function LastRawSample(raw: seq<Byte>, n: nat, prev: int): (r: int)
    requires 2 * n <= |raw|
    ensures n == 0 ==> r == prev
    ensures n > 0 ==> r == SampleOf(raw[2 * n - 2], raw[2 * n - 1])
  {
    if n == 0 then prev else SampleAt(raw, n - 1)
  }

  /** Three worked values: 1000 stays in range (31360); 2000 and -2000 saturate. */
  lemma ConditioningExamples()
    ensures Conditioned(1000) == 31360
    ensures Conditioned(2000) == MAX_INT16
    ensures Conditioned(-2000) == MIN_INT16
  {
  }
}
