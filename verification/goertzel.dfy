/**
 * `Goertzel`: the Goertzel recurrence for one frequency bin, fed in
 * windows of N samples that may arrive over several calls. Doubles are
 * exact reals; `Math.cos` and `Math.sin` are parameters of the
 * constructor.
 */
module Goertzels {
  import opened JavaTypes
  import opened DspUtils

  /** The recurrence state: q0 the current value, q1 the previous one, q2 the one before. */
  datatype QState = QState(q0: real, q1: real, q2: real)

  const Zero := QState(0.0, 0.0, 0.0)

  /** One sample: q0 = coefficient·q1 - q2 + x, then q2 takes q1 and q1 takes q0. */
  function Feed(coefficient: real, q: QState, x: Short): QState
  {
    var q0 := coefficient * q.q1 - q.q2 + x as real;
    QState(q0, q0, q.q1)
  }

  /** The samples xs fed in order, from state q. */
  function FeedAll(coefficient: real, q: QState, xs: seq<Short>): QState
  {
    if |xs| == 0 then q else Feed(coefficient, FeedAll(coefficient, q, xs[..|xs| - 1]), xs[|xs| - 1])
  }

  /** A window split over several calls ends in the same state as one call over all of it. */
  lemma {:induction false} FeedAllSplit(coefficient: real, q: QState, xs: seq<Short>, ys: seq<Short>)
    ensures FeedAll(coefficient, q, xs + ys) == FeedAll(coefficient, FeedAll(coefficient, q, xs), ys)
    decreases |ys|
  {
    if |ys| > 0 {
      assert (xs + ys)[..|xs + ys| - 1] == xs + ys[..|ys| - 1];
      FeedAllSplit(coefficient, q, xs, ys[..|ys| - 1]);
    } else {
      assert xs + ys == xs;
    }
  }

  /** An all-zero window leaves the recurrence at rest. */
  lemma {:induction false} ZeroWindow(coefficient: real, xs: seq<Short>)
    requires forall i :: 0 <= i < |xs| ==> xs[i] == 0
    ensures FeedAll(coefficient, Zero, xs) == Zero
    decreases |xs|
  {
    if |xs| > 0 {
      ZeroWindow(coefficient, xs[..|xs| - 1]);
    }
  }

  /** `setResult(Result)`: the real and imaginary parts from q1 and q2. */
  function RealPart(q: QState, cosOmega: real): real
  {
    q.q1 - q.q2 * cosOmega
  }

  function ImaginaryPart(q: QState, sinOmega: real): real
  {
    q.q2 * sinOmega
  }

  /** `setResult(FastResult)`: the squared magnitude straight from q1 and q2. */
  function MagnitudeSquared(q: QState, coefficient: real): real
  {
    q.q1 * q.q1 + q.q2 * q.q2 - q.q1 * q.q2 * coefficient
  }

  /**
   * Both result forms agree: with coefficient = 2·cos ω and
   * cos² ω + sin² ω = 1, the fast squared magnitude is real² + imaginary².
   */
  lemma FastResultAgrees(q: QState, cosOmega: real, sinOmega: real)
    requires cosOmega * cosOmega + sinOmega * sinOmega == 1.0
    ensures MagnitudeSquared(q, 2.0 * cosOmega) == RealPart(q, cosOmega) * RealPart(q, cosOmega) + ImaginaryPart(q, sinOmega) * ImaginaryPart(q, sinOmega)
  {
    var a, b, c, s := q.q1, q.q2, cosOmega, sinOmega;
    calc {
      (a - b * c) * (a - b * c) + (b * s) * (b * s);
      a * a - 2.0 * a * b * c + b * b * (c * c + s * s);
      a * a + b * b - a * b * (2.0 * c);
    }
  }

  /** An all-zero window gives a zero result in both forms. */
  lemma ZeroWindowResult(coefficient: real, cosOmega: real, sinOmega: real, xs: seq<Short>)
    requires forall i :: 0 <= i < |xs| ==> xs[i] == 0
    ensures RealPart(FeedAll(coefficient, Zero, xs), cosOmega) == 0.0
    ensures ImaginaryPart(FeedAll(coefficient, Zero, xs), sinOmega) == 0.0
    ensures MagnitudeSquared(FeedAll(coefficient, Zero, xs), coefficient) == 0.0
  {
    ZeroWindow(coefficient, xs);
  }

  /** The window size `N - n` left before a result, or the len samples given, whichever is less. */
  function Consumed(left: int, len: int): int
  {
    if left > len then len else left
  }

  /** `Goertzel.Result`: the complex value of the bin. */
  class GoertzelResult {
    /** `real` */
    var re: real
    /** `imaginary` */
    var im: real

    constructor ()
      ensures re == 0.0 && im == 0.0
    {
      re := 0.0;
      im := 0.0;
    }

    /**
     * `phase()` as the code is written: the same branches as
     * `DspUtils.phase`, the imaginary-axis test repeated, so the whole
     * non-positive imaginary half-axis gives NaN.
     */
    function PhaseAsWritten(atan: real -> real): (a: Angle)
      reads this
      ensures a.NotANumber? <==> re == 0.0 && im <= 0.0
      ensures !(re == 0.0 && im < 0.0) ==> a == Phase(atan)
    {
      DspUtils.PhaseAsWritten(atan, im, re)
    }

    /** `phase()`: the same branches as `DspUtils.phase`, used here with the imaginary-axis test corrected. */
    function Phase(atan: real -> real): (a: Angle)
      reads this
      ensures a.NotANumber? <==> re == 0.0 && im == 0.0
    {
      DspUtils.Phase(atan, im, re)
    }

    /** `magnitude()`: sqrt(real² + imaginary²). */
    function Magnitude(sqrt: real -> real): (m: real)
      reads this
      ensures IsSquareRoot(sqrt) ==> m >= 0.0 && m * m == re * re + im * im
    {
      DspUtils.Magnitude(sqrt, im, re)
    }
  }

  /** `Goertzel.FastResult`: the squared magnitude only. */
  class FastResult {
    var magnitudeSquared: real

    constructor ()
      ensures magnitudeSquared == 0.0
    {
      magnitudeSquared := 0.0;
    }

    /** `magnitude()`: the square root of the stored squared magnitude. */
    function Magnitude(sqrt: real -> real): (m: real)
      reads this
      ensures IsSquareRoot(sqrt) && magnitudeSquared >= 0.0 ==> m >= 0.0 && m * m == magnitudeSquared
    {
      sqrt(magnitudeSquared)
    }
  }

  class Goertzel {
    const k: int
    const omega: real
    const cosOmega: real
    const sinOmega: real
    const coefficient: real

    /** The bin size: samples per result. */
    const N: int

    /** Samples processed since the last result. */
    var n: int
    var q0: real
    var q1: real
    var q2: real

    /** The samples processed since the last result. */
    ghost var window: seq<Short>

    function State(): QState
      reads this
    {
      QState(q0, q1, q2)
    }

    ghost predicate Valid()
      reads this
    {
      && 0 <= n < N
      && n == |window|
      && State() == FeedAll(coefficient, Zero, window)
    }

    /**
     * `Goertzel(hz, sampleRate, N)`: k is the bin nearest hz,
     * `(int)(0.5 + N·hz/sampleRate)`, and ω = 2π·k/N.
     */
    constructor (hz: real, sampleRate: int, N: int, cos: real -> real, sin: real -> real)
      requires N >= 1 && sampleRate != 0
      ensures Valid() && this.N == N && n == 0 && window == []
      ensures k == DoubleToInt(0.5 + N as real * hz / sampleRate as real)
      ensures omega == 2.0 * PI / N as real * k as real
      ensures cosOmega == cos(omega) && sinOmega == sin(omega) && coefficient == 2.0 * cosOmega
    {
      this.N := N;
      var k := DoubleToInt(0.5 + N as real * hz / sampleRate as real);
      this.k := k;
      var omega := 2.0 * PI / N as real * k as real;
      this.omega := omega;
      this.cosOmega := cos(omega);
      this.sinOmega := sin(omega);
      this.coefficient := 2.0 * cos(omega);
      n := 0;
      q0, q1, q2 := 0.0, 0.0, 0.0;
      window := [];
    }

    /** `reset()`: back to rest with an empty window. */
    method Reset()
      requires 1 <= N
      modifies this
      ensures Valid() && n == 0 && window == [] && State() == Zero
    {
      q0 := 0.0;
      q1 := 0.0;
      q2 := 0.0;
      n := 0;
      window := [];
    }

    /** samples[off .. off + len), or nothing when len is 0 (off is then never read). */
    ghost function Slice(samples: array<Short>, off: int, len: int): seq<Short>
      requires 0 <= len && (len > 0 ==> 0 <= off && off + len <= samples.Length)
      reads samples
    {
      if len > 0 then samples[off..off + len] else []
    }

    /** The private `process(samples, off, len)`: samples[off .. off + len) through the recurrence. */
    method FeedSamples(samples: array<Short>, off: int, len: int)
      requires 0 <= len && (len > 0 ==> 0 <= off && off + len <= samples.Length)
      modifies this
      ensures State() == FeedAll(coefficient, old(State()), Slice(samples, off, len))
      ensures n == old(n) && window == old(window)
    {
      ghost var start := State();
      for i := 0 to len
        invariant State() == FeedAll(coefficient, start, Slice(samples, off, i))
        invariant n == old(n) && window == old(window)
      {
        q0 := coefficient * q1 - q2 + samples[off + i] as real;
        q2 := q1;
        q1 := q0;
        assert Slice(samples, off, i + 1)[..i] == Slice(samples, off, i);
      }
    }

    /** The branch of both `process` overloads that takes every sample given and returns -1. */
    method Absorb(samples: array<Short>, off: int, len: int)
      requires Valid() && 0 <= len < N - n && (len > 0 ==> 0 <= off && off + len <= samples.Length)
      modifies this
      ensures Valid() && n == old(n) + len && window == old(window) + Slice(samples, off, len)
    {
      FeedSamples(samples, off, len);
      n := n + len;
      FeedAllSplit(coefficient, Zero, window, Slice(samples, off, len));
      window := window + Slice(samples, off, len);
    }

    /** The branch of both `process` overloads that completes the window with N - n samples. */
    method Complete(samples: array<Short>, off: int, left: int)
      requires Valid() && left == N - n && 0 <= off && off + left <= samples.Length
      modifies this
      ensures State() == FeedAll(coefficient, Zero, old(window) + samples[off..off + left])
    {
      FeedSamples(samples, off, left);
      FeedAllSplit(coefficient, Zero, window, samples[off..off + left]);
    }

    /**
     * `process(samples, off, len, result)`: with fewer samples than the
     * window still needs, take them all and return -1; otherwise take
     * exactly N - n, store the bin in result, reset, and return N - n.
     */
    method Process(samples: array<Short>, off: int, len: int, result: GoertzelResult) returns (r: int)
      requires Valid() && 0 <= len
      requires len > 0 ==> 0 <= off && off + Consumed(N - n, len) <= samples.Length
      modifies this, result
      ensures Valid()
      ensures old(N - n) > len ==>
        && r == -1 && n == old(n) + len && window == old(window) + old(Slice(samples, off, len))
        && result.re == old(result.re) && result.im == old(result.im)
      ensures old(N - n) <= len ==>
        && r == old(N - n) && 0 < r <= len && n == 0 && window == [] && State() == Zero
        && var full := FeedAll(coefficient, Zero, old(window) + samples[off..off + r]);
           result.re == RealPart(full, cosOmega) && result.im == ImaginaryPart(full, sinOmega)
    {
      var left := N - n;
      if left > len {
        Absorb(samples, off, len);
        return -1;
      }
      Complete(samples, off, left);
      result.re := q1 - q2 * cosOmega;
      result.im := q2 * sinOmega;
      Reset();
      return left;
    }

    /**
     * `process(samples, off, len, result)` for a `FastResult`: the same
     * counting, storing the squared magnitude.
     */
    method ProcessFast(samples: array<Short>, off: int, len: int, result: FastResult) returns (r: int)
      requires Valid() && 0 <= len
      requires len > 0 ==> 0 <= off && off + Consumed(N - n, len) <= samples.Length
      modifies this, result
      ensures Valid()
      ensures old(N - n) > len ==>
        && r == -1 && n == old(n) + len && window == old(window) + old(Slice(samples, off, len))
        && result.magnitudeSquared == old(result.magnitudeSquared)
      ensures old(N - n) <= len ==>
        && r == old(N - n) && 0 < r <= len && n == 0 && window == [] && State() == Zero
        && result.magnitudeSquared == MagnitudeSquared(FeedAll(coefficient, Zero, old(window) + samples[off..off + r]), coefficient)
    {
      var left := N - n;
      if left > len {
        Absorb(samples, off, len);
        return -1;
      }
      Complete(samples, off, left);
      result.magnitudeSquared := (q1 * q1) + (q2 * q2) - (q1 * q2 * coefficient);
      Reset();
      return left;
    }
  }
}
