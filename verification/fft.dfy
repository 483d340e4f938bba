/**
 * `DspUtils.fft(short[], short[])`: a radix-2 decimation-in-time FFT in
 * place over two `short` arrays. After a bit-reversal sort of the real
 * part, stages of half-width segment = 1, 2, 4, ... (while the stride
 * 2·segment fits the length) combine each position in the lower half of a
 * block with the one segment above it, through a sinusoid advanced by
 * complex multiplication from one column to the next. Every butterfly
 * result is cast back to `short`. `Math.cos` and `Math.sin` are parameters.
 */
module FastFourier {
  import opened JavaTypes
  import opened DspUtils

  /** A complex value in doubles. */
  datatype Phasor = Phasor(re: real, im: real)

  /** The two arrays as values. */
  datatype Signal = Signal(re: seq<Short>, im: seq<Short>)

  /** Complex multiplication, in the order the source writes its parts. */
  function Mul(w: Phasor, s: Phasor): Phasor
  {
    Phasor(w.re * s.re - w.im * s.im, w.re * s.im + w.im * s.re)
  }

  /** The per-column rotation of the stage with half-width segment: (cos(π/segment), -sin(π/segment)). */
  function StepOf(segment: int, cos: real -> real, sin: real -> real): Phasor
    requires segment > 0
  {
    Phasor(cos(PI / segment as real), -sin(PI / segment as real))
  }

  /** The sinusoid at column j: 1, then multiplied by step once per column. */
  function Twiddle(step: Phasor, j: nat): Phasor
  {
    if j == 0 then Phasor(1.0, 0.0) else Mul(Twiddle(step, j - 1), step)
  }

  /** j·θ, named so that quantifiers over j have a term to trigger on. */
  function Multiple(j: int, theta: real): real
  {
    j as real * theta
  }

  /** The angle-addition formulas for a pair of angles. */
  ghost predicate AngleAddition(cos: real -> real, sin: real -> real, a: real, b: real)
  {
    && cos(a + b) == cos(a) * cos(b) - sin(a) * sin(b)
    && sin(a + b) == sin(a) * cos(b) + cos(a) * sin(b)
  }

  lemma MultipleStep(j: int, theta: real)
    ensures Multiple(j, theta) + theta == Multiple(j + 1, theta)
  {
  }

  /**
   * Where cos and sin obey the angle-addition formulas, the sinusoid
   * advanced by complex multiplication is exactly the rotation by -j·θ:
   * the source's iteration computes cos(j·π/segment) and -sin(j·π/segment).
   */
  lemma {:induction false} TwiddleIsRotation(cos: real -> real, sin: real -> real, theta: real, j: nat)
    requires cos(Multiple(0, theta)) == 1.0 && sin(Multiple(0, theta)) == 0.0
    requires forall k :: 0 <= k < j ==> AngleAddition(cos, sin, Multiple(k, theta), theta)
    ensures Twiddle(Phasor(cos(theta), -sin(theta)), j) == Phasor(cos(Multiple(j, theta)), -sin(Multiple(j, theta)))
  {
    if j > 0 {
      TwiddleIsRotation(cos, sin, theta, j - 1);
      var a := Multiple(j - 1, theta);
      MultipleStep(j - 1, theta);
      assert AngleAddition(cos, sin, a, theta);
      RotationStep(cos, sin, a, theta);
    }
  }

  /** One more column: the rotation by -a times the rotation by -b is the rotation by -(a + b). */
  lemma RotationStep(cos: real -> real, sin: real -> real, a: real, b: real)
    requires AngleAddition(cos, sin, a, b)
    ensures Mul(Phasor(cos(a), -sin(a)), Phasor(cos(b), -sin(b))) == Phasor(cos(a + b), -sin(a + b))
  {
    RotationAlgebra(cos(a), sin(a), cos(b), sin(b));
  }

  lemma RotationAlgebra(ca: real, sa: real, cb: real, sb: real)
    ensures Mul(Phasor(ca, -sa), Phasor(cb, -sb)) == Phasor(ca * cb - sa * sb, -(sa * cb + ca * sb))
  {
    var p, q := sa * sb, sa * cb;
    assert (-sa) * (-sb) == p;
    assert (-sa) * cb == -q;
  }

  /**
   * p's offset within its block of d, p mod d, by repeated subtraction:
   * the stages only ever step positions by whole blocks.
   */
  function Offset(p: int, d: int): (r: int)
    requires p >= 0 && d > 0
    ensures 0 <= r < d && r <= p
    decreases p
  {
    if p < d then p else Offset(p - d, d)
  }

  /** Moving down within a block lowers the offset by as much. */
  lemma {:induction false} OffsetDown(p: int, d: int, s: int)
    requires p >= 0 && d > 0 && 0 <= s <= Offset(p, d)
    ensures Offset(p - s, d) == Offset(p, d) - s
    decreases p
  {
    if p >= d {
      OffsetDown(p - d, d, s);
    }
  }

  /** Moving up within a block raises the offset by as much. */
  lemma {:induction false} OffsetUp(p: int, d: int, s: int)
    requires p >= 0 && d > 0 && s >= 0 && Offset(p, d) + s < d
    ensures Offset(p + s, d) == Offset(p, d) + s
    decreases p
  {
    if p >= d {
      OffsetUp(p - d, d, s);
    }
  }

  /** Two positions less than a block apart with the same offset are the same position. */
  lemma {:induction false} OffsetClose(a: int, b: int, d: int)
    requires a >= 0 && b >= 0 && d > 0 && Offset(a, d) == Offset(b, d) && a < b + d && b < a + d
    ensures a == b
    decreases a + b
  {
    if a >= d && b >= d {
      OffsetClose(a - d, b - d, d);
    }
  }

  /** In a length made of whole blocks, the block of any position ends inside it. */
  lemma {:induction false} BlockInside(L: int, d: int, p: int)
    requires d > 0 && 0 <= p < L && Offset(L, d) == 0
    ensures p - Offset(p, d) + d <= L
    decreases p
  {
    if p >= d {
      BlockInside(L - d, d, p - d);
    }
  }

  /** Within its block of 2·segment: the pair's lower position for p. */
  function Lower(p: int, segment: int): int
    requires p >= 0 && segment > 0
  {
    if Offset(p, 2 * segment) < segment then p else p - segment
  }

  /** The column of p: its offset from the start of its half-block, which picks the sinusoid. */
  function Col(p: int, segment: int): (j: int)
    requires p >= 0 && segment > 0
    ensures 0 <= j < segment
  {
    var h := Offset(p, 2 * segment);
    if h < segment then h else h - segment
  }

  /** The position p pairs with in the stage of half-width segment. */
  function Partner(p: int, segment: int): int
    requires p >= 0 && segment > 0
  {
    if p == Lower(p, segment) then p + segment else p - segment
  }

  /** The lower position of a pair sits at its column within the block. */
  lemma LowerAtCol(p: int, segment: int)
    requires segment > 0 && p >= 0
    ensures 0 <= Lower(p, segment) <= p
    ensures Offset(Lower(p, segment), 2 * segment) == Col(p, segment)
  {
    if Offset(p, 2 * segment) >= segment {
      OffsetDown(p, 2 * segment, segment);
    }
  }

  /** Both positions of the pair starting at i1 have column j and lower position i1. */
  lemma PairAt(i1: int, segment: int, j: int)
    requires segment > 0 && 0 <= j < segment && i1 >= 0 && Offset(i1, 2 * segment) == j
    ensures Lower(i1, segment) == i1 && Col(i1, segment) == j
    ensures Lower(i1 + segment, segment) == i1 && Col(i1 + segment, segment) == j
  {
    OffsetUp(i1, 2 * segment, segment);
  }

  /** For a length made of whole strides, the partner of every lower position is in bounds. */
  lemma PairInRange(L: int, segment: int, p: int)
    requires segment > 0 && 0 <= p < L && Offset(L, 2 * segment) == 0
    ensures Lower(p, segment) + segment < L
  {
    BlockInside(L, 2 * segment, p);
  }

  /**
   * Each stage pairs every index exactly once: the partner of p is in
   * bounds, differs from p, has p as its own partner, and shares p's pair
   * and column, so exactly one of the two is the lower position.
   */
  lemma StagePairs(L: int, segment: int, p: int)
    requires segment > 0 && 0 <= p < L && Offset(L, 2 * segment) == 0
    ensures var r := Partner(p, segment);
      && 0 <= r < L && r != p && Partner(r, segment) == p
      && Lower(r, segment) == Lower(p, segment) && Col(r, segment) == Col(p, segment)
      && (p == Lower(p, segment) <==> r != Lower(r, segment))
  {
    PairInRange(L, segment, p);
    LowerAtCol(p, segment);
    PairAt(Lower(p, segment), segment, Col(p, segment));
  }

  /** The rotated upper input of a butterfly: upper · w, in doubles. */
  function Product(re: Short, im: Short, w: Phasor): Phasor
  {
    Mul(Phasor(re as real, im as real), w)
  }

  /** The four outputs of a butterfly. */
  datatype Outputs = Outputs(lowRe: Short, lowIm: Short, highRe: Short, highIm: Short)

  /**
   * One butterfly: with lower input a, upper input b and t = b·w, the lower
   * output is (short)(a + t) and the upper one (short)(a - t), for both parts.
   */
  function ButterflyOf(aRe: Short, aIm: Short, bRe: Short, bIm: Short, w: Phasor): Outputs
  {
    var t := Product(bRe, bIm, w);
    Outputs(DoubleToShort(aRe as real + t.re), DoubleToShort(aIm as real + t.im),
            DoubleToShort(aRe as real - t.re), DoubleToShort(aIm as real - t.im))
  }

  /** The butterfly of x on the pair starting at i1, with sinusoid w. */
  function PairOf(x: Signal, segment: int, w: Phasor, i1: int): Outputs
    requires |x.re| == |x.im| && segment > 0 && 0 <= i1 && i1 + segment < |x.re|
  {
    ButterflyOf(x.re[i1], x.im[i1], x.re[i1 + segment], x.im[i1 + segment], w)
  }

  /**
   * The value at p after the stage of half-width segment: the lower or the
   * upper output of the butterfly on its pair, with its column's sinusoid.
   */
  function StageAt(x: Signal, segment: int, step: Phasor, p: int): (Short, Short)
    requires |x.re| == |x.im| && segment > 0 && Offset(|x.re|, 2 * segment) == 0 && 0 <= p < |x.re|
  {
    PairInRange(|x.re|, segment, p);
    LowerAtCol(p, segment);
    var i1 := Lower(p, segment);
    var o := PairOf(x, segment, Twiddle(step, Col(p, segment)), i1);
    if p == i1 then (o.lowRe, o.lowIm) else (o.highRe, o.highIm)
  }

  /** One stage over the whole signal. */
  function Stage(x: Signal, segment: int, step: Phasor): (y: Signal)
    requires |x.re| == |x.im| && segment > 0 && Offset(|x.re|, 2 * segment) == 0
    ensures |y.re| == |y.im| == |x.re|
    ensures forall p :: 0 <= p < |x.re| ==> y.re[p] == StageAt(x, segment, step, p).0 && y.im[p] == StageAt(x, segment, step, p).1
  {
    var L := |x.re|;
    Signal(seq(L, p requires 0 <= p < L => StageAt(x, segment, step, p).0),
           seq(L, p requires 0 <= p < L => StageAt(x, segment, step, p).1))
  }

  /** A power of two is a whole number of blocks of every power of two at most as large. */
  lemma {:induction false} PowerDivides(a: int, b: int)
    requires IsPowerOfTwo(a) && IsPowerOfTwo(b) && a <= b
    ensures Offset(b, a) == 0
    decreases b
  {
    if a == 1 {
      OffsetOfOne(b);
    } else if a < b {
      PowerDivides(a / 2, b / 2);
      OffsetDouble(b / 2, a / 2);
    }
  }

  lemma PowerDouble(n: int)
    requires IsPowerOfTwo(n)
    ensures IsPowerOfTwo(2 * n)
  {
    assert (2 * n) / 2 == n;
  }

  lemma {:induction false} OffsetOfOne(b: int)
    requires b >= 0
    ensures Offset(b, 1) == 0
  {
    if b >= 1 {
      OffsetOfOne(b - 1);
    }
  }

  /** Doubling both the position and the block doubles the offset. */
  lemma {:induction false} OffsetDouble(m: int, d: int)
    requires m >= 0 && d > 0
    ensures Offset(2 * m, 2 * d) == 2 * Offset(m, d)
    decreases m
  {
    if m >= d {
      OffsetDouble(m - d, d);
    }
  }

  /** The stages from half-width segment on, while the stride 2·segment fits the length. */
  function Stages(x: Signal, segment: int, cos: real -> real, sin: real -> real): (y: Signal)
    requires |x.re| == |x.im| && IsPowerOfTwo(|x.re|) && IsPowerOfTwo(segment)
    ensures |y.re| == |y.im| == |x.re|
    decreases |x.re| - segment
  {
    if 2 * segment > |x.re| then x
    else
      PowerDivides(2 * segment, |x.re|);
      Stages(Stage(x, segment, StepOf(segment, cos, sin)), 2 * segment, cos, sin)
  }

  /** The transform: the stages from segment 1 over the real part after `bitReversalSort` and the imaginary part as given. */
  function Fft(re: seq<Short>, im: seq<Short>, cos: real -> real, sin: real -> real): (y: Signal)
    requires |re| == |im| && IsPowerOfTwo(|re|)
    ensures |y.re| == |y.im| == |re|
  {
    Stages(Signal(BitReversed(re), im), 1, cos, sin)
  }

  /** An all-zero signal is a fixed point of every stage. */
  lemma StageOfZero(x: Signal, segment: int, step: Phasor)
    requires |x.re| == |x.im| && segment > 0 && Offset(|x.re|, 2 * segment) == 0
    requires forall p :: 0 <= p < |x.re| ==> x.re[p] == 0 && x.im[p] == 0
    ensures Stage(x, segment, step) == x
  {
    forall i1 | 0 <= i1 && i1 + segment < |x.re| && Offset(i1, 2 * segment) < segment
      ensures ButterflyAt(x, x, segment, step, i1)
    {
      ZeroButterfly(Twiddle(step, Offset(i1, 2 * segment)));
    }
    PairsDetermine(x, x, segment, step);
  }

  /** A butterfly on two zeros gives zeros. */
  lemma ZeroButterfly(w: Phasor)
    ensures ButterflyOf(0, 0, 0, 0, w) == Outputs(0, 0, 0, 0)
  {
    assert Product(0, 0, w) == Phasor(0.0, 0.0);
  }

  /** The transform of silence is silence. */
  lemma {:induction false} StagesOfZero(x: Signal, segment: int, cos: real -> real, sin: real -> real)
    requires |x.re| == |x.im| && IsPowerOfTwo(|x.re|) && IsPowerOfTwo(segment)
    requires forall p :: 0 <= p < |x.re| ==> x.re[p] == 0 && x.im[p] == 0
    ensures Stages(x, segment, cos, sin) == x
    decreases |x.re| - segment
  {
    if 2 * segment <= |x.re| {
      PowerDivides(2 * segment, |x.re|);
      StageOfZero(x, segment, StepOf(segment, cos, sin));
      StagesOfZero(x, 2 * segment, cos, sin);
    }
  }

  /**
   * `fft(real, img)`: in place, the arrays end as the transform of their
   * old contents.
   */
  method Transform(re: array<Short>, im: array<Short>, cos: real -> real, sin: real -> real)
    requires re != im && re.Length == im.Length && IsPowerOfTwo(re.Length)
    modifies re, im
    ensures Signal(re[..], im[..]) == Fft(old(re[..]), old(im[..]), cos, sin)
  {
    BitReversalSort(re);
    ghost var x0 := Signal(re[..], im[..]);
    var segment, stride := 1, 2;
    while stride <= re.Length
      invariant IsPowerOfTwo(segment) && stride == 2 * segment
      invariant Stages(Signal(re[..], im[..]), segment, cos, sin) == Stages(x0, 1, cos, sin)
      decreases re.Length - segment
    {
      PowerDouble(segment);
      PowerDivides(stride, re.Length);
      ghost var before := Signal(re[..], im[..]);
      RunStage(re, im, segment, cos, sin);
      StagesStep(before, segment, cos, sin, Signal(re[..], im[..]));
      segment := stride;
      stride := stride * 2;
    }
  }

  /** One stage taken, the rest to go. */
  lemma StagesStep(x: Signal, segment: int, cos: real -> real, sin: real -> real, y: Signal)
    requires |x.re| == |x.im| && IsPowerOfTwo(|x.re|) && IsPowerOfTwo(segment) && 2 * segment <= |x.re|
    requires Offset(|x.re|, 2 * segment) == 0 && y == Stage(x, segment, StepOf(segment, cos, sin))
    ensures IsPowerOfTwo(2 * segment) && Stages(y, 2 * segment, cos, sin) == Stages(x, segment, cos, sin)
  {
  }

  /** One pass of the outer loop: every column of the stage with half-width segment. */
  method RunStage(re: array<Short>, im: array<Short>, segment: int, cos: real -> real, sin: real -> real)
    requires re != im && re.Length == im.Length && segment > 0 && Offset(re.Length, 2 * segment) == 0
    modifies re, im
    ensures Signal(re[..], im[..]) == Stage(old(Signal(re[..], im[..])), segment, StepOf(segment, cos, sin))
  {
    ghost var x := Signal(re[..], im[..]);
    var step := StepOf(segment, cos, sin);
    StagePairsExist(x, segment, step);
    ghost var y: Signal :| PairsHold(x, y, segment, step);
    var sinusoid := Phasor(1.0, 0.0);
    for j := 0 to segment
      invariant sinusoid == Twiddle(step, j)
      invariant forall p :: 0 <= p < re.Length ==>
        if Col(p, segment) < j then re[p] == y.re[p] && im[p] == y.im[p] else re[p] == x.re[p] && im[p] == x.im[p]
    {
      RunColumn(re, im, segment, j, sinusoid, x, step, y);
      sinusoid := Mul(sinusoid, step);
    }
    PairsDetermine(x, y, segment, step);
    assert re[..] == y.re;
    assert im[..] == y.im;
  }

  /** y holds, at the pair starting at i1, the butterfly of x with sinusoid w. */
  ghost predicate PairHolds(x: Signal, y: Signal, segment: int, w: Phasor, i1: int)
    requires |x.re| == |x.im| == |y.re| == |y.im| && segment > 0 && 0 <= i1 && i1 + segment < |x.re|
  {
    Outputs(y.re[i1], y.im[i1], y.re[i1 + segment], y.im[i1 + segment]) == PairOf(x, segment, w, i1)
  }

  /** y holds every butterfly of the stage on x, each with its column's sinusoid. */
  ghost predicate PairsHold(x: Signal, y: Signal, segment: int, step: Phasor)
  {
    && |x.re| == |x.im| == |y.re| == |y.im| && segment > 0
    && forall i1 {:trigger ButterflyAt(x, y, segment, step, i1)} ::
         0 <= i1 && i1 + segment < |x.re| && Offset(i1, 2 * segment) < segment ==> ButterflyAt(x, y, segment, step, i1)
  }

  /** y holds the butterfly of the pair starting at i1 with its column's sinusoid. */
  ghost predicate ButterflyAt(x: Signal, y: Signal, segment: int, step: Phasor, i1: int)
    requires |x.re| == |x.im| == |y.re| == |y.im| && segment > 0 && 0 <= i1 && i1 + segment < |x.re|
  {
    PairHolds(x, y, segment, Twiddle(step, Offset(i1, 2 * segment)), i1)
  }

  /** The stage holds all of its butterflies. */
  lemma StageIsPairs(x: Signal, segment: int, step: Phasor)
    requires |x.re| == |x.im| && segment > 0 && Offset(|x.re|, 2 * segment) == 0
    ensures PairsHold(x, Stage(x, segment, step), segment, step)
  {
    forall i1 | 0 <= i1 && i1 + segment < |x.re| && Offset(i1, 2 * segment) < segment
      ensures ButterflyAt(x, Stage(x, segment, step), segment, step, i1)
    {
      StageAtPair(x, segment, step, i1);
    }
  }

  /** Some signal holds every butterfly of the stage: the stage itself. */
  lemma StagePairsExist(x: Signal, segment: int, step: Phasor)
    requires |x.re| == |x.im| && segment > 0 && Offset(|x.re|, 2 * segment) == 0
    ensures exists y :: PairsHold(x, y, segment, step)
  {
    StageIsPairs(x, segment, step);
  }

  /** Holding every butterfly determines the stage: every position belongs to one of the pairs. */
  lemma PairsDetermine(x: Signal, y: Signal, segment: int, step: Phasor)
    requires PairsHold(x, y, segment, step) && Offset(|x.re|, 2 * segment) == 0
    ensures y == Stage(x, segment, step)
  {
    var z := Stage(x, segment, step);
    forall p | 0 <= p < |x.re|
      ensures y.re[p] == z.re[p] && y.im[p] == z.im[p]
    {
      PairDetermines(x, y, segment, step, p);
    }
    assert y.re == z.re && y.im == z.im;
  }

  /** The value at p is fixed by the butterfly of its pair. */
  lemma PairDetermines(x: Signal, y: Signal, segment: int, step: Phasor, p: int)
    requires PairsHold(x, y, segment, step) && 0 <= p < |x.re| && Offset(|x.re|, 2 * segment) == 0
    ensures (y.re[p], y.im[p]) == StageAt(x, segment, step, p)
  {
    PairInRange(|x.re|, segment, p);
    LowerAtCol(p, segment);
    var i1 := Lower(p, segment);
    PairAt(i1, segment, Col(p, segment));
    assert ButterflyAt(x, y, segment, step, i1);
  }

  /** The inner loop: the butterflies of column j, i1 = j, j + stride, ... */
  method RunColumn(re: array<Short>, im: array<Short>, segment: int, j: int, sinusoid: Phasor,
                   ghost x: Signal, ghost step: Phasor, ghost y: Signal)
    requires re != im && re.Length == im.Length == |x.re| == |x.im| && segment > 0 && Offset(re.Length, 2 * segment) == 0
    requires 0 <= j < segment && sinusoid == Twiddle(step, j) && PairsHold(x, y, segment, step)
    requires forall p :: 0 <= p < re.Length ==>
      if Col(p, segment) < j then re[p] == y.re[p] && im[p] == y.im[p] else re[p] == x.re[p] && im[p] == x.im[p]
    modifies re, im
    ensures forall p :: 0 <= p < re.Length ==>
      if Col(p, segment) <= j then re[p] == y.re[p] && im[p] == y.im[p] else re[p] == x.re[p] && im[p] == x.im[p]
  {
    var stride := 2 * segment;
    var i1 := j;
    forall p | 0 <= p < re.Length && Col(p, segment) == j
      ensures Lower(p, segment) >= j
    {
      LowerAtCol(p, segment);
    }
    while i1 < re.Length
      invariant j <= i1 && Offset(i1, stride) == j
      invariant forall p :: 0 <= p < re.Length ==>
        if Col(p, segment) < j || (Col(p, segment) == j && Lower(p, segment) < i1)
        then re[p] == y.re[p] && im[p] == y.im[p] else re[p] == x.re[p] && im[p] == x.im[p]
      decreases re.Length - i1
    {
      PairInRange(re.Length, segment, i1);
      assert ButterflyAt(x, y, segment, step, i1);
      RunPair(re, im, segment, j, i1, sinusoid, x, y);
      i1 := i1 + stride;
    }
  }

  /**
   * One pass of the inner loop: the butterfly on the pair starting at i1,
   * whose stage values y holds as the butterfly computes them.
   */
  method RunPair(re: array<Short>, im: array<Short>, segment: int, j: int, i1: int, sinusoid: Phasor,
                 ghost x: Signal, ghost y: Signal)
    requires re != im && re.Length == im.Length == |x.re| == |x.im| == |y.re| == |y.im| && segment > 0
    requires 0 <= j < segment && 0 <= i1 && i1 + segment < re.Length && Offset(i1, 2 * segment) == j
    requires PairHolds(x, y, segment, sinusoid, i1)
    requires forall p :: 0 <= p < re.Length ==>
      if Col(p, segment) < j || (Col(p, segment) == j && Lower(p, segment) < i1)
      then re[p] == y.re[p] && im[p] == y.im[p] else re[p] == x.re[p] && im[p] == x.im[p]
    modifies re, im
    ensures forall p :: 0 <= p < re.Length ==>
      if Col(p, segment) < j || (Col(p, segment) == j && Lower(p, segment) < i1 + 2 * segment)
      then re[p] == y.re[p] && im[p] == y.im[p] else re[p] == x.re[p] && im[p] == x.im[p]
  {
    var i2 := i1 + segment;
    PairAt(i1, segment, j);
    assert re[i1] == x.re[i1] && im[i1] == x.im[i1] && re[i2] == x.re[i2] && im[i2] == x.im[i2];
    Butterfly(re, im, i1, i2, sinusoid);
    forall p | 0 <= p < re.Length && p != i1 && p != i2 && Col(p, segment) == j
      ensures Lower(p, segment) < i1 + 2 * segment ==> Lower(p, segment) < i1
    {
      ColumnStep(p, segment, i1);
    }
  }

  /** The stage holds the butterfly of the pair starting at i1. */
  lemma StageAtPair(x: Signal, segment: int, step: Phasor, i1: int)
    requires |x.re| == |x.im| && segment > 0 && Offset(|x.re|, 2 * segment) == 0
    requires 0 <= i1 && i1 + segment < |x.re| && Offset(i1, 2 * segment) < segment
    ensures ButterflyAt(x, Stage(x, segment, step), segment, step, i1)
  {
    PairAt(i1, segment, Offset(i1, 2 * segment));
  }

  /** Pairs of one column lie a whole stride apart, so none sits strictly between i1 and i1 + stride. */
  lemma ColumnStep(p: int, segment: int, i1: int)
    requires segment > 0 && p >= 0 && i1 >= 0 && Offset(i1, 2 * segment) == Col(p, segment)
    requires p != i1 && p != i1 + segment
    ensures Lower(p, segment) < i1 + 2 * segment ==> Lower(p, segment) < i1
  {
    LowerAtCol(p, segment);
    var l := Lower(p, segment);
    if i1 <= l < i1 + 2 * segment {
      OffsetClose(l, i1, 2 * segment);
    }
  }

  /** The body of the inner loop: one butterfly on positions i1 and i2 with sinusoid w. */
  method Butterfly(re: array<Short>, im: array<Short>, i1: int, i2: int, w: Phasor)
    requires re != im && re.Length == im.Length && 0 <= i1 < re.Length && 0 <= i2 < re.Length && i1 != i2
    modifies re, im
    ensures Outputs(re[i1], im[i1], re[i2], im[i2]) == ButterflyOf(old(re[i1]), old(im[i1]), old(re[i2]), old(im[i2]), w)
    ensures forall p :: 0 <= p < re.Length && p != i1 && p != i2 ==> re[p] == old(re[p]) && im[p] == old(im[p])
  {
    var o := ButterflyOf(re[i1], im[i1], re[i2], im[i2], w);
    re[i2], im[i2] := o.highRe, o.highIm;
    re[i1], im[i1] := o.lowRe, o.lowIm;
  }
}
