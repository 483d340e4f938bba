/**
 * `DspUtils`: phase and magnitude of a complex value, a direct DFT, and
 * the in-place radix-2 FFT with its bit-reversal sort. `Math.atan`,
 * `Math.sqrt`, `Math.cos` and `Math.sin` are parameters, and doubles are
 * exact reals; the `(short)` casts of the FFT are kept.
 */
module DspUtils {
  import opened JavaTypes

  /** π/2, as `Math.PI / 2` computes it. */
  const HalfPi: real := PI / 2.0

  /** A `double` angle: a number of radians, or NaN. */
  datatype Angle = Radians(radians: real) | NotANumber

  /** What the model assumes of `Math.atan`: a value in (-π/2, π/2) with the sign of its argument. */
  ghost predicate IsArcTangent(atan: real -> real)
  {
    forall x :: -HalfPi < atan(x) < HalfPi && (x > 0.0 ==> atan(x) > 0.0) && (x < 0.0 ==> atan(x) < 0.0) && (x == 0.0 ==> atan(x) == 0.0)
  }

  /** What the model assumes of `Math.sqrt` on non-negative arguments. */
  ghost predicate IsSquareRoot(sqrt: real -> real)
  {
    forall x :: x >= 0.0 ==> sqrt(x) >= 0.0 && sqrt(x) * sqrt(x) == x
  }

  /**
   * `phase(imaginary, real)` as the code is written: on the imaginary axis
   * the second test repeats `imaginary > 0`, so the negative half-axis
   * falls through to NaN instead of -π/2.
   */
  function PhaseAsWritten(atan: real -> real, im: real, re: real): (a: Angle)
    ensures a.NotANumber? <==> re == 0.0 && im <= 0.0
    ensures !(re == 0.0 && im < 0.0) ==> a == Phase(atan, im, re)
  {
    if re > 0.0 then Radians(atan(im / re))
    else if re < 0.0 then
      if im >= 0.0 then Radians(atan(im / re) + PI) else Radians(atan(im / re) - PI)
    else if im > 0.0 then Radians(HalfPi)
    else if im > 0.0 then Radians(-HalfPi)
    else NotANumber
  }

  /** The point (0, -1) shows the difference: NaN as written, -π/2 once corrected. */
  lemma PhaseNegativeImaginaryAxis(atan: real -> real)
    ensures PhaseAsWritten(atan, -1.0, 0.0) == NotANumber
    ensures Phase(atan, -1.0, 0.0) == Radians(-HalfPi)
  {
  }

  /**
   * `phase(imaginary, real)` with the second imaginary-axis test reading
   * `imaginary < 0`: the two-argument arctangent, NaN only at the origin.
   */
  function Phase(atan: real -> real, im: real, re: real): (a: Angle)
    ensures a.NotANumber? <==> re == 0.0 && im == 0.0
    ensures IsArcTangent(atan) && a.Radians? ==>
      && -PI < a.radians <= PI
      && (a.radians > 0.0 <==> im > 0.0 || (im == 0.0 && re < 0.0))
      && (a.radians < 0.0 <==> im < 0.0)
  {
    if re > 0.0 then Radians(atan(im / re))
    else if re < 0.0 then
      if im >= 0.0 then Radians(atan(im / re) + PI) else Radians(atan(im / re) - PI)
    else if im > 0.0 then Radians(HalfPi)
    else if im < 0.0 then Radians(-HalfPi)
    else NotANumber
  }

  /** `magnitude(imaginary, real)`: the length of real + i·imaginary. */
  function Magnitude(sqrt: real -> real, im: real, re: real): (m: real)
    ensures IsSquareRoot(sqrt) ==> m >= 0.0 && m * m == re * re + im * im
  {
    SquarePositive(re);
    SquarePositive(im);
    sqrt(re * re + im * im)
  }

  lemma SquarePositive(x: real)
    ensures x * x >= 0.0 && (x != 0.0 ==> x * x > 0.0) && (x == 0.0 ==> x * x == 0.0)
  {
    if x < 0.0 {
      assert x * x == (-x) * (-x);
    }
  }

  /** The magnitude bounds both components, so it is 0 only at the origin. */
  lemma MagnitudeBounds(sqrt: real -> real, im: real, re: real)
    requires IsSquareRoot(sqrt)
    ensures Magnitude(sqrt, im, re) >= AbsReal(re)
    ensures Magnitude(sqrt, im, re) >= AbsReal(im)
  {
    var m := Magnitude(sqrt, im, re);
    SquareBelow(m, AbsReal(re), im * im);
    SquareBelow(m, AbsReal(im), re * re);
  }

  /** A non-negative m with m² = x² + e (e ≥ 0) is at least x. */
  lemma SquareBelow(m: real, x: real, e: real)
    requires m >= 0.0 && x >= 0.0 && e >= 0.0 && m * m == x * x + e
    ensures m >= x
  {
    SquareMono(m, x);
  }

  lemma SquareMono(m: real, x: real)
    ensures 0.0 <= m < x ==> m * m < x * x
  {
    if 0.0 <= m < x {
      var mm, mx, xx := m * m, m * x, x * x;
      assert mm <= mx;
      assert mx < xx;
    }
  }

  /** The angle `2π·k·s / L` of sample s in bin k of an L-sample transform. */
  function BinAngle(k: int, s: int, L: int): real
    requires L > 0
  {
    2.0 * PI * k as real * s as real / L as real
  }

  /** Sample v, at position s of L, weighted by the cosine of its angle in bin k. */
  function CosTerm(cos: real -> real, v: Short, k: int, s: int, L: int): real
    requires L > 0
  {
    v as real * cos(BinAngle(k, s, L))
  }

  /** Sample v, at position s of L, weighted by the sine of its angle in bin k. */
  function SinTerm(sin: real -> real, v: Short, k: int, s: int, L: int): real
    requires L > 0
  {
    v as real * sin(BinAngle(k, s, L))
  }

  /** Σ_{s < n} samples[s]·cos(BinAngle(k, s, |samples|)). */
  function CosSum(cos: real -> real, samples: seq<Short>, k: int, n: nat): real
    requires n <= |samples|
  {
    if n == 0 then 0.0 else CosSum(cos, samples, k, n - 1) + CosTerm(cos, samples[n - 1], k, n - 1, |samples|)
  }

  /** Σ_{s < n} samples[s]·sin(BinAngle(k, s, |samples|)). */
  function SinSum(sin: real -> real, samples: seq<Short>, k: int, n: nat): real
    requires n <= |samples|
  {
    if n == 0 then 0.0 else SinSum(sin, samples, k, n - 1) + SinTerm(sin, samples[n - 1], k, n - 1, |samples|)
  }

  /** samples[0] + ... + samples[n - 1]. */
  function SampleSum(samples: seq<Short>, n: nat): real
    requires n <= |samples|
  {
    if n == 0 then 0.0 else SampleSum(samples, n - 1) + samples[n - 1] as real
  }

  /** Bin 0 is the plain sum of the samples, with no sine part, when cos 0 = 1 and sin 0 = 0. */
  lemma {:induction false} DftDc(cos: real -> real, sin: real -> real, samples: seq<Short>, n: nat)
    requires n <= |samples| && cos(0.0) == 1.0 && sin(0.0) == 0.0
    ensures CosSum(cos, samples, 0, n) == SampleSum(samples, n)
    ensures SinSum(sin, samples, 0, n) == 0.0
  {
    if n > 0 {
      DftDc(cos, sin, samples, n - 1);
      assert BinAngle(0, n - 1, |samples|) == 0.0;
    }
  }

  /** The number of samples `dft` reads: N, or none when N is not positive. */
  function Count(N: int): nat
  {
    if N > 0 then N else 0
  }

  /**
   * `dft(samples, re_x, im_x, N)`: for every bin k below re_x.length, add
   * the cosine sum of the first N samples into re_x[k] and subtract the
   * sine sum from im_x[k]. The angle divides by samples.length, not N, and
   * the bins are accumulated, not overwritten. When re_x and im_x are the
   * same array, each bin gains the cosine sum and loses the sine sum.
   */
  method Dft(samples: array<Short>, reX: array<real>, imX: array<real>, N: int, cos: real -> real, sin: real -> real)
    requires N > 0 && reX.Length > 0 ==> N <= samples.Length && reX.Length <= imX.Length
    modifies reX, imX
    ensures reX != imX ==> forall k :: 0 <= k < reX.Length ==> reX[k] == old(reX[k]) + CosSum(cos, samples[..], k, Count(N))
    ensures reX != imX ==> forall k :: 0 <= k < imX.Length ==>
      imX[k] == old(imX[k]) - if k < reX.Length then SinSum(sin, samples[..], k, Count(N)) else 0.0
    ensures reX == imX ==> forall k :: 0 <= k < reX.Length ==>
      reX[k] == old(reX[k]) + CosSum(cos, samples[..], k, Count(N)) - SinSum(sin, samples[..], k, Count(N))
  {
    ghost var xs := samples[..];
    for x := 0 to reX.Length
      invariant reX != imX ==> forall k :: 0 <= k < x ==> reX[k] == old(reX[k]) + CosSum(cos, xs, k, Count(N))
      invariant reX != imX ==> forall k :: x <= k < reX.Length ==> reX[k] == old(reX[k])
      invariant reX != imX ==> forall k :: 0 <= k < imX.Length ==>
        imX[k] == old(imX[k]) - if k < x then SinSum(sin, xs, k, Count(N)) else 0.0
      invariant reX == imX ==> forall k :: 0 <= k < x ==>
        reX[k] == old(reX[k]) + CosSum(cos, xs, k, Count(N)) - SinSum(sin, xs, k, Count(N))
      invariant reX == imX ==> forall k :: x <= k < reX.Length ==> reX[k] == old(reX[k])
    {
      DftBin(samples, reX, imX, N, x, cos, sin);
    }
  }

  /** The inner loop of `dft`: bin x, and nothing else. */
  method DftBin(samples: array<Short>, reX: array<real>, imX: array<real>, N: int, x: int, cos: real -> real, sin: real -> real)
    requires 0 <= x < reX.Length
    requires N > 0 ==> N <= samples.Length && reX.Length <= imX.Length
    modifies reX, imX
    ensures forall k :: 0 <= k < reX.Length && k != x ==> reX[k] == old(reX[k])
    ensures reX != imX ==> reX[x] == old(reX[x]) + CosSum(cos, samples[..], x, Count(N))
    ensures reX != imX ==> forall k :: 0 <= k < imX.Length ==>
      imX[k] == old(imX[k]) - if k == x then SinSum(sin, samples[..], x, Count(N)) else 0.0
    ensures reX == imX ==> reX[x] == old(reX[x]) + CosSum(cos, samples[..], x, Count(N)) - SinSum(sin, samples[..], x, Count(N))
  {
    ghost var xs := samples[..];
    assert CosSum(cos, xs, x, 0) == 0.0 && SinSum(sin, xs, x, 0) == 0.0;
    if N <= 0 {
      return;
    }
    for s := 0 to N
      invariant forall k :: 0 <= k < reX.Length && k != x ==> reX[k] == old(reX[k])
      invariant reX != imX ==> reX[x] == old(reX[x]) + CosSum(cos, xs, x, s)
      invariant reX != imX ==> imX[x] == old(imX[x]) - SinSum(sin, xs, x, s)
      invariant reX != imX ==> forall k :: 0 <= k < imX.Length && k != x ==> imX[k] == old(imX[k])
      invariant reX == imX ==> reX[x] == old(reX[x]) + CosSum(cos, xs, x, s) - SinSum(sin, xs, x, s)
    {
      reX[x] := reX[x] + CosTerm(cos, samples[s], x, s, samples.Length);
      imX[x] := imX[x] - SinTerm(sin, samples[s], x, s, samples.Length);
    }
  }

  /** 2^b. */
  function Pow2(b: nat): (p: nat)
    ensures p >= 1
  {
    if b == 0 then 1 else 2 * Pow2(b - 1)
  }

  /** n is 1, 2, 4, 8, ... */
  predicate IsPowerOfTwo(n: int)
  {
    n >= 1 && (n == 1 || (n % 2 == 0 && IsPowerOfTwo(n / 2)))
  }

  /** log2 n, for a power of two n. */
  function Log2(n: int): (b: nat)
    requires IsPowerOfTwo(n)
    ensures Pow2(b) == n
  {
    if n == 1 then 0 else 1 + Log2(n / 2)
  }

  /** The b-bit reversal of t: the low bit of t becomes the high bit of the result. */
  function Rev(b: nat, t: int): (r: int)
    requires 0 <= t < Pow2(b)
    ensures 0 <= r < Pow2(b)
  {
    if b == 0 then 0
    else if t % 2 == 1 then Pow2(b - 1) + Rev(b - 1, t / 2)
    else Rev(b - 1, t / 2)
  }

  /**
   * The inner loop of `bitReversalSort` as a function: while m >= 2 and
   * j > m, take m off j and halve m; then add m to j.
   */
  function Advance(j: int, m: int): int
    decreases m
  {
    if m >= 2 && j > m then Advance(j - m, m / 2) else j + m
  }

  /**
   * The inner loop is a bit-reversed increment: from j = 2·Rev(t) + 1 and
   * m = 2^b it reaches 2·Rev(t + 1) + 1.
   */
  lemma {:induction false} AdvanceIsReversedIncrement(b: nat, t: int)
    requires 0 <= t && t + 1 < Pow2(b)
    ensures Advance(2 * Rev(b, t) + 1, Pow2(b)) == 2 * Rev(b, t + 1) + 1
    decreases b, 1
  {
    if t % 2 == 0 {
      AdvanceWithoutCarry(b, t);
    } else {
      AdvanceWithCarry(b, t);
    }
  }

  /** An even t: the high bit of the reversal turns on, and j stays below m. */
  lemma AdvanceWithoutCarry(b: nat, t: int)
    requires b >= 1 && 0 <= t && t + 1 < Pow2(b) && t % 2 == 0
    ensures Advance(2 * Rev(b, t) + 1, Pow2(b)) == 2 * Rev(b, t + 1) + 1
  {
    var h := Pow2(b - 1);
    assert (t + 1) % 2 == 1 && (t + 1) / 2 == t / 2;
    assert Rev(b, t) == Rev(b - 1, t / 2) < h;
    assert Rev(b, t + 1) == h + Rev(b - 1, t / 2);
  }

  /** An odd t: the high bit turns off and the rest is an increment over b - 1 bits. */
  lemma {:induction false} AdvanceWithCarry(b: nat, t: int)
    requires b >= 1 && 0 <= t && t + 1 < Pow2(b) && t % 2 == 1
    ensures Advance(2 * Rev(b, t) + 1, Pow2(b)) == 2 * Rev(b, t + 1) + 1
    decreases b, 0
  {
    var h, u := Pow2(b - 1), t / 2;
    assert (t + 1) % 2 == 0 && (t + 1) / 2 == u + 1;
    var r, r' := Rev(b - 1, u), Rev(b - 1, u + 1);
    assert Rev(b, t) == h + r && Rev(b, t + 1) == r';
    AdvanceIsReversedIncrement(b - 1, u);
    var j, m := 2 * Rev(b, t) + 1, Pow2(b);
    assert m == 2 * h && j == m + 2 * r + 1;
    assert Advance(j, m) == Advance(j - m, m / 2);
    assert j - m == 2 * r + 1 && m / 2 == h;
  }

  /** Exchange s[i] and s[j]. */
  function Swap(s: seq<Short>, i: int, j: int): (r: seq<Short>)
    requires 0 <= i < |s| && 0 <= j < |s|
    ensures |r| == |s|
  {
    s[i := s[j]][j := s[i]]
  }

  /** An exchange keeps the elements. */
  lemma SwapPermutes(s: seq<Short>, i: int, j: int)
    requires 0 <= i < |s| && 0 <= j < |s|
    ensures multiset(Swap(s, i, j)) == multiset(s)
  {
    var r1 := s[i := s[j]];
    assert multiset(r1) == multiset(s) - multiset{s[i]} + multiset{s[j]};
    if i != j {
      assert r1[j] == s[j];
    }
  }

  lemma {:induction false} RevOfZero(b: nat)
    ensures Rev(b, 0) == 0
  {
    if b > 0 {
      RevOfZero(b - 1);
    }
  }

  /** Position 2·Rev(u) + 1 for every u below 2^b: the odd position step u exchanges with. */
  function Partners(b: nat): (ps: seq<int>)
    ensures |ps| == Pow2(b) && forall u :: 0 <= u < |ps| ==> ps[u] == 2 * Rev(b, u) + 1
  {
    seq(Pow2(b), u requires 0 <= u < Pow2(b) => 2 * Rev(b, u) + 1)
  }

  /** Partner positions that are odd and inside an array of 2·|ps| elements. */
  ghost predicate OddPositions(ps: seq<int>)
  {
    forall u :: 0 <= u < |ps| ==> 0 <= ps[u] < 2 * |ps| && ps[u] % 2 == 1
  }

  lemma PartnersAreOdd(b: nat)
    ensures OddPositions(Partners(b))
  {
  }

  /**
   * The exchanges of steps 0 .. t - 1: at step u, positions 2u + 1 and
   * ps[u] trade places when ps[u] lies beyond 2u + 1.
   */
  function Exchanged(s: seq<Short>, ps: seq<int>, t: int): (r: seq<Short>)
    requires 2 * |ps| <= |s| && OddPositions(ps) && 0 <= t <= |ps|
    ensures |r| == |s|
  {
    if t == 0 then s
    else
      var u := t - 1;
      var prev := Exchanged(s, ps, u);
      if ps[u] > 2 * u + 1 then Swap(prev, 2 * u + 1, ps[u]) else prev
  }

  /** The partner table of an n-element sort: none below 2 elements, else one per odd position. */
  function PartnerTable(n: int): (ps: seq<int>)
    requires IsPowerOfTwo(n)
    ensures OddPositions(ps) && 2 * |ps| <= n && (n >= 2 ==> 2 * |ps| == n)
  {
    if n < 2 then [] else PartnersAreOdd(Log2(n / 2)); Partners(Log2(n / 2))
  }

  /** The result of `bitReversalSort` on a power-of-two length: every step of the loop. */
  function BitReversed(s: seq<Short>): (r: seq<Short>)
    requires IsPowerOfTwo(|s|)
    ensures |r| == |s|
  {
    var ps := PartnerTable(|s|);
    Exchanged(s, ps, |ps|)
  }

  /** The exchanges only move elements around. */
  lemma {:induction false} ExchangedPermutes(s: seq<Short>, ps: seq<int>, t: int)
    requires 2 * |ps| <= |s| && OddPositions(ps) && 0 <= t <= |ps|
    ensures multiset(Exchanged(s, ps, t)) == multiset(s)
  {
    if t > 0 {
      var u := t - 1;
      var prev := Exchanged(s, ps, u);
      ExchangedPermutes(s, ps, u);
      if ps[u] > 2 * u + 1 {
        assert Exchanged(s, ps, t) == Swap(prev, 2 * u + 1, ps[u]);
        SwapPermutes(prev, 2 * u + 1, ps[u]);
      } else {
        assert Exchanged(s, ps, t) == prev;
      }
    }
  }

  /** Every exchange is between odd positions, so no even position moves. */
  lemma {:induction false} ExchangedKeepsEven(s: seq<Short>, ps: seq<int>, t: int, p: int)
    requires 2 * |ps| <= |s| && OddPositions(ps) && 0 <= t <= |ps|
    requires 0 <= p < |s| && p % 2 == 0
    ensures Exchanged(s, ps, t)[p] == s[p]
  {
    if t > 0 {
      var u := t - 1;
      ExchangedKeepsEven(s, ps, u, p);
      assert p != 2 * u + 1 && p != ps[u];
    }
  }

  /** `bitReversalSort` permutes its input and leaves even positions alone. */
  lemma BitReversedPermutes(s: seq<Short>)
    requires IsPowerOfTwo(|s|)
    ensures multiset(BitReversed(s)) == multiset(s)
    ensures forall p :: 0 <= p < |s| && p % 2 == 0 ==> BitReversed(s)[p] == s[p]
  {
    var ps := PartnerTable(|s|);
    ExchangedPermutes(s, ps, |ps|);
    forall p | 0 <= p < |s| && p % 2 == 0
      ensures BitReversed(s)[p] == s[p]
    {
      ExchangedKeepsEven(s, ps, |ps|, p);
    }
  }

  /**
   * The partner table of an n-element sort is 2·Rev(u) + 1 over b bits,
   * with n = 2^(b + 1) once n >= 2; the first partner is 1.
   */
  lemma PartnerTableShape(n: int) returns (b: nat)
    requires IsPowerOfTwo(n)
    ensures n >= 2 ==> n == 2 * Pow2(b) == 2 * |PartnerTable(n)|
    ensures n < 2 ==> |PartnerTable(n)| == 0
    ensures forall u :: 0 <= u < |PartnerTable(n)| ==> PartnerTable(n)[u] == 2 * Rev(b, u) + 1
    ensures Rev(b, 0) == 0
  {
    b := if n < 2 then 0 else Log2(n / 2);
    RevOfZero(b);
  }

  /** The inner loop's increment carries each partner to the next one. */
  lemma PartnerAdvance(n: int, t: int)
    requires IsPowerOfTwo(n) && 0 <= t && t + 1 < |PartnerTable(n)|
    ensures Advance(PartnerTable(n)[t], n / 2) == PartnerTable(n)[t + 1]
  {
    var b := PartnerTableShape(n);
    AdvanceIsReversedIncrement(b, t);
  }

  /**
   * `bitReversalSort(real)` on a power-of-two length: odd positions
   * 2t + 1 and 2·Rev(t) + 1 trade places, with j kept equal to
   * 2·Rev(t) + 1 by the inner loop. The `double m` of the source only
   * holds powers of two here, so it is an integer.
   */
  method BitReversalSort(a: array<Short>)
    requires IsPowerOfTwo(a.Length)
    modifies a
    ensures a[..] == BitReversed(old(a[..]))
  {
    PartnerChain(a.Length);
    ExchangeLoop(a, PartnerTable(a.Length));
  }

  /** Each partner of the table is the inner loop's increment of the one before. */
  ghost predicate AdvanceChain(ps: seq<int>, half: int)
  {
    forall t :: 0 <= t < |ps| - 1 ==> Advance(ps[t], half) == ps[t + 1]
  }

  /** The partner table is the sequence of j values that `bitReversalSort` walks, from j = 1. */
  lemma PartnerChain(n: int)
    requires IsPowerOfTwo(n)
    ensures AdvanceChain(PartnerTable(n), n / 2)
    ensures |PartnerTable(n)| > 0 ==> PartnerTable(n)[0] == 1
    ensures 2 * |PartnerTable(n)| == n || (|PartnerTable(n)| == 0 && n < 2)
  {
    var b := PartnerTableShape(n);
    forall t | 0 <= t < |PartnerTable(n)| - 1
      ensures Advance(PartnerTable(n)[t], n / 2) == PartnerTable(n)[t + 1]
    {
      PartnerAdvance(n, t);
    }
  }

  /**
   * The loop of `bitReversalSort`: i runs over the odd positions, j over the
   * partner table, and step t exchanges 2t + 1 with ps[t].
   */
  method ExchangeLoop(a: array<Short>, ghost ps: seq<int>)
    requires OddPositions(ps) && AdvanceChain(ps, a.Length / 2)
    requires 2 * |ps| == a.Length || (|ps| == 0 && a.Length < 2)
    requires |ps| > 0 ==> ps[0] == 1
    modifies a
    ensures a[..] == Exchanged(old(a[..]), ps, |ps|)
  {
    ghost var a0 := a[..];
    var j := 1;
    var i := 1;
    ghost var t := 0;
    while i < a.Length
      invariant 0 <= t <= |ps| && i == 2 * t + 1
      invariant t < |ps| ==> j == ps[t]
      invariant a[..] == Exchanged(a0, ps, t)
    {
      ExchangeStep(a, i, j, a0, ps, t);
      j := ReversedIncrement(j, a.Length / 2);
      i := i + 2;
      t := t + 1;
    }
  }

  /** The exchange in the body of `bitReversalSort`: step t's pair trades places when j lies beyond i. */
  method ExchangeStep(a: array<Short>, i: int, j: int, ghost a0: seq<Short>, ghost ps: seq<int>, ghost t: int)
    requires 2 * |ps| <= |a0| && OddPositions(ps) && 0 <= t < |ps| && i == 2 * t + 1 && j == ps[t]
    requires a[..] == Exchanged(a0, ps, t)
    modifies a
    ensures a[..] == Exchanged(a0, ps, t + 1)
  {
    if j > i {
      var tmp := a[i];
      a[i] := a[j];
      a[j] := tmp;
      assert a[..] == Swap(old(a[..]), i, j);
    }
  }

  /** The inner loop of `bitReversalSort`, which moves j to the next partner position. */
  method ReversedIncrement(j0: int, half: int) returns (j: int)
    ensures j == Advance(j0, half)
  {
    j := j0;
    var m := half;
    while m >= 2 && j > m
      invariant Advance(j, m) == Advance(j0, half)
      decreases m
    {
      j := j - m;
      m := m / 2;
    }
    j := j + m;
  }

  /**
   * `bitReversalSort` as written on 4 samples: m starts at 2, the only
   * partner of position 1 is 1 and of position 3 is 3, so nothing moves.
   */
  lemma BitReversedFour(s: seq<Short>)
    requires |s| == 4
    ensures BitReversed(s) == s
  {
    assert Rev(1, 0) == 0 && Rev(1, 1) == 1;
    var ps := PartnerTable(4);
    assert ps == [1, 3];
    assert Exchanged(s, ps, 1) == s;
    assert Exchanged(s, ps, 2) == s;
  }

  /**
   * `bitReversalSort` as written on 8 samples: only positions 3 and 5
   * trade places, where the 3-bit reversal exchanges 1 with 4 and 3 with 6
   * (`BitReversalEight`).
   */
  lemma BitReversedEight(s: seq<Short>)
    requires |s| == 8
    ensures BitReversed(s) == [s[0], s[1], s[2], s[5], s[4], s[3], s[6], s[7]]
  {
    PartnerTableEight();
    var ps := PartnerTable(8);
    assert Exchanged(s, ps, 1) == s;
    var swapped := Swap(s, 3, 5);
    assert Exchanged(s, ps, 2) == swapped;
    assert Exchanged(s, ps, 3) == swapped;
    assert Exchanged(s, ps, 4) == swapped;
  }

  /** The partners of the odd positions of 8 samples, as `bitReversalSort`'s j visits them. */
  lemma PartnerTableEight()
    ensures PartnerTable(8) == [1, 5, 3, 7]
  {
    assert Log2(8 / 2) == 2;
    assert Rev(2, 0) == 0 && Rev(2, 1) == 2 && Rev(2, 2) == 1 && Rev(2, 3) == 3;
    assert Partners(2) == [1, 5, 3, 7];
  }

  /** The standard bit reversal of 8 samples exchanges 1 with 4 and 3 with 6. */
  lemma BitReversalEight(s: seq<Short>)
    requires |s| == 8
    ensures BitReversal(s) == [s[0], s[4], s[2], s[6], s[1], s[5], s[3], s[7]]
  {
    assert Log2(8) == 3;
    BitReversalIsReversal(s);
    RevThree();
  }

  /** The 3-bit reversals of 0 .. 7. */
  lemma RevThree()
    ensures Rev(3, 0) == 0 && Rev(3, 1) == 4 && Rev(3, 2) == 2 && Rev(3, 3) == 6
    ensures Rev(3, 4) == 1 && Rev(3, 5) == 5 && Rev(3, 6) == 3 && Rev(3, 7) == 7
  {
    assert Rev(2, 0) == 0 && Rev(2, 1) == 2 && Rev(2, 2) == 1 && Rev(2, 3) == 3;
  }

  /** Setting the high bit of a (b-1)-bit u: its reversal gains the low bit. */
  lemma {:induction false} RevHigh(b: nat, high: bool, u: int)
    requires b >= 1 && 0 <= u < Pow2(b - 1)
    ensures Rev(b, (if high then Pow2(b - 1) else 0) + u) == 2 * Rev(b - 1, u) + (if high then 1 else 0)
  {
    if b >= 2 {
      var t := (if high then Pow2(b - 1) else 0) + u;
      assert t % 2 == u % 2 && t / 2 == (if high then Pow2(b - 2) else 0) + u / 2;
      RevHigh(b - 1, high, u / 2);
    }
  }

  /** Reversing the bits twice gives the number back. */
  lemma {:induction false} RevInvolution(b: nat, t: int)
    requires 0 <= t < Pow2(b)
    ensures Rev(b, Rev(b, t)) == t
  {
    if b > 0 {
      RevInvolution(b - 1, t / 2);
      RevHigh(b, t % 2 == 1, Rev(b - 1, t / 2));
    }
  }

  /** A table of positions inside n elements that is its own inverse. */
  ghost predicate SelfInverse(ps: seq<int>)
  {
    forall k :: 0 <= k < |ps| ==> 0 <= ps[k] < |ps| && ps[ps[k]] == k
  }

  /** Rev(b, k) for every k below 2^b. */
  function RevTable(b: nat): (ps: seq<int>)
    ensures |ps| == Pow2(b) && forall k :: 0 <= k < |ps| ==> ps[k] == Rev(b, k)
  {
    seq(Pow2(b), k requires 0 <= k < Pow2(b) => Rev(b, k))
  }

  /** The reversal table is its own inverse. */
  lemma RevTableSelfInverse(b: nat)
    ensures SelfInverse(RevTable(b))
  {
    var ps := RevTable(b);
    forall k | 0 <= k < |ps|
      ensures 0 <= ps[k] < |ps| && ps[ps[k]] == k
    {
      RevInvolution(b, k);
    }
  }

  /**
   * The first t steps of a standard bit-reversal sort: at step k,
   * positions k and ps[k] trade places when ps[k] lies beyond k.
   */
  function ReversalSwaps(s: seq<Short>, ps: seq<int>, t: int): (r: seq<Short>)
    requires |ps| == |s| && SelfInverse(ps) && 0 <= t <= |s|
    ensures |r| == |s| && multiset(r) == multiset(s)
  {
    if t == 0 then s
    else
      var prev := ReversalSwaps(s, ps, t - 1);
      if ps[t - 1] > t - 1 then SwapPermutes(prev, t - 1, ps[t - 1]); Swap(prev, t - 1, ps[t - 1]) else prev
  }

  /** The bit-reversal permutation that `bitReversalSort` is evidently meant to perform. */
  function BitReversal(s: seq<Short>): (r: seq<Short>)
    requires IsPowerOfTwo(|s|)
    ensures |r| == |s|
  {
    var ps := RevTable(Log2(|s|));
    RevTableSelfInverse(Log2(|s|));
    ReversalSwaps(s, ps, |s|)
  }

  /** After t steps, exactly the positions whose pair has met a step hold their partner's sample. */
  lemma {:induction false} ReversalSwapsProgress(s: seq<Short>, ps: seq<int>, t: int, k: int)
    requires |ps| == |s| && SelfInverse(ps) && 0 <= t <= |s| && 0 <= k < |s|
    ensures ReversalSwaps(s, ps, t)[k] == if k < t || ps[k] < t then s[ps[k]] else s[k]
  {
    if t > 0 {
      var u := t - 1;
      ReversalSwapsProgress(s, ps, u, k);
      if ps[u] > u && (k == u || k == ps[u]) {
        ReversalSwapsProgress(s, ps, u, if k == u then ps[u] else u);
      }
    }
  }

  /** Sample k of the bit-reversal permutation is sample Rev(k) of its input. */
  lemma BitReversalIsReversal(s: seq<Short>)
    requires IsPowerOfTwo(|s|)
    ensures forall k :: 0 <= k < |s| ==> BitReversal(s)[k] == s[Rev(Log2(|s|), k)]
  {
    var ps := RevTable(Log2(|s|));
    RevTableSelfInverse(Log2(|s|));
    forall k | 0 <= k < |s|
      ensures BitReversal(s)[k] == s[Rev(Log2(|s|), k)]
    {
      ReversalSwapsProgress(s, ps, |s|, k);
    }
  }

  /** The bit-reversal permutation permutes, and applying it twice gives the input back. */
  lemma BitReversalInvolution(s: seq<Short>)
    requires IsPowerOfTwo(|s|)
    ensures multiset(BitReversal(s)) == multiset(s)
    ensures BitReversal(BitReversal(s)) == s
  {
    var b := Log2(|s|);
    var r := BitReversal(s);
    BitReversalIsReversal(s);
    BitReversalIsReversal(r);
    forall k | 0 <= k < |s|
      ensures BitReversal(r)[k] == s[k]
    {
      RevInvolution(b, k);
    }
  }
}
