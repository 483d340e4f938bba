/**
 * `ConvolutionFilter`: overlap-add filtering of fixed-size blocks. The
 * kernel is zero-padded to 2·dftSize, each block of sampleCount samples is
 * zero-padded to the same length, the two are convolved through the
 * frequency domain, and the K - 1 samples that spill past the block are
 * carried into the next call. Doubles are exact reals, and the transform,
 * bin product and inverse transform together are taken as what they compute
 * exactly: the circular convolution of the two padded arrays.
 */
module ConvolutionFilters {
  import opened JavaTypes
  import opened DspUtils
  import FastFourier
  import FilterKernels

  /** h[j], or 0 outside the kernel. */
  function Tap(h: seq<real>, j: int): real
  {
    if 0 <= j < |h| then h[j] else 0.0
  }

  /** Σ_{i < n} x[i]·h[t - i]: the first n terms of output t of the linear convolution. */
  function LinearUpTo(x: seq<real>, h: seq<real>, t: int, n: nat): real
    requires n <= |x|
  {
    if n == 0 then 0.0 else LinearUpTo(x, h, t, n - 1) + x[n - 1] * Tap(h, t - (n - 1))
  }

  /** Output t of the linear convolution of x with h. */
  function LinearAt(x: seq<real>, h: seq<real>, t: int): real
  {
    LinearUpTo(x, h, t, |x|)
  }

  /** The linear convolution of x with a kernel h of at least one tap: |x| + |h| - 1 outputs. */
  function Linear(x: seq<real>, h: seq<real>): (y: seq<real>)
    requires |h| >= 1
    ensures |y| == |x| + |h| - 1
  {
    seq(|x| + |h| - 1, t => LinearAt(x, h, t))
  }

  /** The first n terms agree when x is extended on the right. */
  lemma {:induction false} LinearPrefix(a: seq<real>, b: seq<real>, h: seq<real>, t: int, n: nat)
    requires n <= |a|
    ensures LinearUpTo(a + b, h, t, n) == LinearUpTo(a, h, t, n)
  {
    if n > 0 {
      LinearPrefix(a, b, h, t, n - 1);
    }
  }

  lemma {:induction false} LinearAppendUpTo(a: seq<real>, b: seq<real>, h: seq<real>, t: int, n: nat)
    requires n <= |b|
    ensures LinearUpTo(a + b, h, t, |a| + n) == LinearAt(a, h, t) + LinearUpTo(b, h, t - |a|, n)
  {
    if n == 0 {
      LinearPrefix(a, b, h, t, |a|);
    } else {
      LinearAppendUpTo(a, b, h, t, n - 1);
      assert (a + b)[|a| + n - 1] == b[n - 1];
    }
  }

  /** Convolution is linear over concatenation: b's contribution is delayed by |a|. */
  lemma LinearAppend(a: seq<real>, b: seq<real>, h: seq<real>, t: int)
    ensures LinearAt(a + b, h, t) == LinearAt(a, h, t) + LinearAt(b, h, t - |a|)
  {
    LinearAppendUpTo(a, b, h, t, |b|);
  }

  lemma {:induction false} LinearSupportUpTo(x: seq<real>, h: seq<real>, t: int, n: nat)
    requires n <= |x| && (t < 0 || t >= |x| + |h| - 1)
    ensures LinearUpTo(x, h, t, n) == 0.0
  {
    if n > 0 {
      LinearSupportUpTo(x, h, t, n - 1);
    }
  }

  /** Outputs before 0 and from |x| + |h| - 1 on are zero. */
  lemma LinearSupport(x: seq<real>, h: seq<real>, t: int)
    requires t < 0 || t >= |x| + |h| - 1
    ensures LinearAt(x, h, t) == 0.0
  {
    LinearSupportUpTo(x, h, t, |x|);
  }

  /** Nothing convolved gives K - 1 zeros. */
  lemma LinearOfEmpty(h: seq<real>)
    requires |h| >= 1
    ensures Linear([], h) == seq(|h| - 1, _ => 0.0)
  {
  }

  /** The index d taken modulo n, for -n <= d < n. */
  function Wrap(d: int, n: int): int
  {
    if d < 0 then d + n else d
  }

  /** Σ_{i < m} x[i]·h[(t - i) mod n] over arrays of the same length n. */
  function CircularUpTo(x: seq<real>, h: seq<real>, t: int, m: nat): real
    requires |x| == |h| && 0 <= t < |x| && m <= |x|
  {
    if m == 0 then 0.0 else CircularUpTo(x, h, t, m - 1) + x[m - 1] * h[Wrap(t - (m - 1), |x|)]
  }

  /**
   * The circular convolution of two arrays of the same length: what the
   * transform of both, the pointwise product of the bins and the inverse
   * transform compute, in exact arithmetic.
   */
  function Circular(x: seq<real>, h: seq<real>): (y: seq<real>)
    requires |x| == |h|
    ensures |y| == |x|
  {
    seq(|x|, t requires 0 <= t < |x| => CircularUpTo(x, h, t, |x|))
  }

  /** x is zero from s on. */
  ghost predicate ZeroFrom(x: seq<real>, s: int)
  {
    forall i :: 0 <= i < |x| && s <= i ==> x[i] == 0.0
  }

  lemma {:induction false} CircularUpToIsLinear(x: seq<real>, h: seq<real>, s: nat, k: nat, t: int, m: nat)
    requires |x| == |h| && 0 <= t < |x| && m <= |x|
    requires s <= |x| && 1 <= k <= |x| && s + k - 1 <= |x| && ZeroFrom(x, s) && ZeroFrom(h, k)
    ensures CircularUpTo(x, h, t, m) == LinearUpTo(x[..s], h[..k], t, if m < s then m else s)
  {
    if m > 0 {
      CircularUpToIsLinear(x, h, s, k, t, m - 1);
      var i := m - 1;
      if i < s {
        var j := Wrap(t - i, |x|);
        assert h[j] == Tap(h[..k], t - i);
        assert x[..s][i] == x[i];
      } else {
        assert x[i] == 0.0;
      }
    }
  }

  /**
   * Zero padding makes the circular convolution linear: a block of s
   * samples and a kernel of k taps, both padded to n >= s + k - 1, wrap
   * nothing around. This is why one pass of the transform gives the whole
   * linear convolution of a block.
   */
  lemma CircularIsLinear(x: seq<real>, h: seq<real>, s: nat, k: nat)
    requires |x| == |h| == s + k - 1 && 1 <= k <= |x|
    requires ZeroFrom(x, s) && ZeroFrom(h, k)
    ensures Circular(x, h) == Linear(x[..s], h[..k])
  {
    forall t | 0 <= t < |x|
      ensures Circular(x, h)[t] == Linear(x[..s], h[..k])[t]
    {
      CircularUpToIsLinear(x, h, s, k, t, |x|);
    }
  }

  /** What one call of `filter` produces from a block: the outputs and the overlap to carry. */
  datatype Block = Block(output: seq<real>, overlap: seq<real>)

  /**
   * One block: its linear convolution y with the kernel, the carried
   * overlap added into the first K - 1 outputs, and y past the block
   * carried on.
   */
  function FilterBlock(signal: seq<real>, h: seq<real>, overlap: seq<real>): (b: Block)
    requires |h| >= 1 && |overlap| == |h| - 1 <= |signal|
    ensures |b.output| == |signal| && |b.overlap| == |overlap|
  {
    var y := Linear(signal, h);
    Block(AddPrefix(y, overlap)[..|signal|], y[|signal|..])
  }

  /** y with o added into its first |o| elements. */
  function AddPrefix(y: seq<real>, o: seq<real>): (r: seq<real>)
    requires |o| <= |y|
    ensures |r| == |y|
  {
    seq(|y|, i requires 0 <= i < |y| => if i < |o| then y[i] + o[i] else y[i])
  }

  /**
   * Overlap-add continues a convolution: if the outputs e so far followed by
   * the overlap are the convolution of the input x so far, then after one
   * more block they are the convolution of x followed by that block.
   */
  lemma FilterBlockExtends(x: seq<real>, e: seq<real>, overlap: seq<real>, signal: seq<real>, h: seq<real>)
    requires |h| >= 1 && |overlap| == |h| - 1 <= |signal|
    requires e + overlap == Linear(x, h)
    ensures var b := FilterBlock(signal, h, overlap);
      e + b.output + b.overlap == Linear(x + signal, h)
  {
    var b := FilterBlock(signal, h, overlap);
    var lhs := e + b.output + b.overlap;
    var rhs := Linear(x + signal, h);
    assert |e| == |x|;
    forall t | 0 <= t < |rhs|
      ensures lhs[t] == rhs[t]
    {
      LinearAppend(x, signal, h, t);
      if t < |x| {
        assert lhs[t] == e[t] == Linear(x, h)[t];
        LinearSupport(signal, h, t - |x|);
      } else if t < |x| + |signal| {
        var u := t - |x|;
        assert lhs[t] == b.output[u] == AddPrefix(Linear(signal, h), overlap)[u];
        if u < |overlap| {
          assert overlap[u] == Linear(x, h)[t];
        } else {
          LinearSupport(x, h, t);
        }
      } else {
        assert lhs[t] == b.overlap[t - |x| - |signal|];
        LinearSupport(x, h, t);
      }
    }
  }

  /** The blocks laid end to end. */
  function Flatten(blocks: seq<seq<real>>): seq<real>
  {
    if |blocks| == 0 then [] else blocks[0] + Flatten(blocks[1..])
  }

  /** Every block is at least as long as the overlap. */
  ghost predicate LongBlocks(blocks: seq<seq<real>>, n: int)
  {
    forall i :: 0 <= i < |blocks| ==> |blocks[i]| >= n
  }

  /** Successive `filter` calls, starting from the given overlap: all outputs, and the overlap left. */
  function Stream(blocks: seq<seq<real>>, h: seq<real>, overlap: seq<real>): (r: Block)
    requires |h| >= 1 && |overlap| == |h| - 1 && LongBlocks(blocks, |h| - 1)
    ensures |r.overlap| == |overlap|
  {
    if |blocks| == 0 then Block([], overlap)
    else
      var b := FilterBlock(blocks[0], h, overlap);
      var rest := Stream(blocks[1..], h, b.overlap);
      Block(b.output + rest.output, rest.overlap)
  }

  lemma {:induction false} StreamExtends(x: seq<real>, e: seq<real>, blocks: seq<seq<real>>, h: seq<real>, overlap: seq<real>)
    requires |h| >= 1 && |overlap| == |h| - 1 && LongBlocks(blocks, |h| - 1)
    requires e + overlap == Linear(x, h)
    ensures var r := Stream(blocks, h, overlap);
      e + r.output + r.overlap == Linear(x + Flatten(blocks), h)
    decreases |blocks|
  {
    if |blocks| == 0 {
      assert x + Flatten(blocks) == x;
    } else {
      var b := FilterBlock(blocks[0], h, overlap);
      var rest := Stream(blocks[1..], h, b.overlap);
      assert Stream(blocks, h, overlap) == Block(b.output + rest.output, rest.overlap);
      FilterBlockExtends(x, e, overlap, blocks[0], h);
      assert LongBlocks(blocks[1..], |h| - 1);
      StreamExtends(x + blocks[0], e + b.output, blocks[1..], h, b.overlap);
      assert x + blocks[0] + Flatten(blocks[1..]) == x + Flatten(blocks) by {
        assert Flatten(blocks) == blocks[0] + Flatten(blocks[1..]);
      }
      assert e + b.output + rest.output == e + (b.output + rest.output);
    }
  }

  /**
   * The outputs of successive `filter` calls on a fresh filter, followed
   * by the final overlap, are the linear convolution of the whole input.
   */
  lemma StreamIsConvolution(blocks: seq<seq<real>>, h: seq<real>)
    requires |h| >= 1 && LongBlocks(blocks, |h| - 1)
    ensures var r := Stream(blocks, h, seq(|h| - 1, _ => 0.0));
      r.output + r.overlap == Linear(Flatten(blocks), h)
  {
    var zeros := seq(|h| - 1, _ => 0.0);
    LinearOfEmpty(h);
    assert [] + zeros == Linear([], h);
    StreamExtends([], [], blocks, h, zeros);
    var r := Stream(blocks, h, zeros);
    assert [] + r.output == r.output;
    assert [] + Flatten(blocks) == Flatten(blocks);
  }

  /**
   * The book example: kernel {1, 2, 1} (dftSize 4, sampleCount 6) over the
   * block {1, ..., 6} gives {1, 4, 8, 12, 16, 20} and leaves {17, 6}.
   */
  /** Output t of a convolution of six samples, written out term by term. */
  lemma LinearOfSix(x: seq<real>, h: seq<real>, t: int)
    requires |x| == 6
    ensures LinearAt(x, h, t) == x[0] * Tap(h, t) + x[1] * Tap(h, t - 1) + x[2] * Tap(h, t - 2)
      + x[3] * Tap(h, t - 3) + x[4] * Tap(h, t - 4) + x[5] * Tap(h, t - 5)
  {
    assert LinearUpTo(x, h, t, 1) == x[0] * Tap(h, t);
    assert LinearUpTo(x, h, t, 2) == LinearUpTo(x, h, t, 1) + x[1] * Tap(h, t - 1);
    assert LinearUpTo(x, h, t, 3) == LinearUpTo(x, h, t, 2) + x[2] * Tap(h, t - 2);
    assert LinearUpTo(x, h, t, 4) == LinearUpTo(x, h, t, 3) + x[3] * Tap(h, t - 3);
    assert LinearUpTo(x, h, t, 5) == LinearUpTo(x, h, t, 4) + x[4] * Tap(h, t - 4);
  }

  /**
   * The book example: kernel {1, 2, 1} (dftSize 4, sampleCount 6) over the
   * block {1, ..., 6} gives {1, 4, 8, 12, 16, 20} and leaves {17, 6}.
   */
  lemma BookExample()
    ensures IsPowerOfTwo(4) && 3 <= 4 && 4 / 2 < 3 && 2 * 4 - (3 - 1) == 6
    ensures FilterBlock([1.0, 2.0, 3.0, 4.0, 5.0, 6.0], [1.0, 2.0, 1.0], [0.0, 0.0])
         == Block([1.0, 4.0, 8.0, 12.0, 16.0, 20.0], [17.0, 6.0])
  {
    var x, h := [1.0, 2.0, 3.0, 4.0, 5.0, 6.0], [1.0, 2.0, 1.0];
    var y := Linear(x, h);
    forall t | 0 <= t < 8
      ensures y[t] == [1.0, 4.0, 8.0, 12.0, 16.0, 20.0, 17.0, 6.0][t]
    {
      LinearOfSix(x, h, t);
    }
    assert IsPowerOfTwo(2);
  }

  /** A power of two below another is at most half of it. */
  lemma {:induction false} PowerBelow(p: int, d: int)
    requires IsPowerOfTwo(p) && IsPowerOfTwo(d) && p < d
    ensures 2 * p <= d
    decreases d
  {
    if p > 1 {
      PowerBelow(p / 2, d / 2);
    }
  }

  /**
   * A power of two d >= K whose half is below K is the smallest power of
   * two >= K.
   */
  lemma SmallestPowerAtLeast(k: int, d: int, p: int)
    requires IsPowerOfTwo(d) && (d == 1 || d / 2 < k)
    requires IsPowerOfTwo(p) && k <= p
    ensures d <= p
  {
    if p < d {
      PowerBelow(p, d);
    }
  }

  /** The constructor's `for (dftSize = 1; dftSize < filterKernelSize; dftSize *= 2)`. */
  method DftSizeFor(k: int) returns (d: int)
    ensures IsPowerOfTwo(d) && k <= d && (d == 1 || d / 2 < k)
  {
    d := 1;
    while d < k
      invariant IsPowerOfTwo(d) && (d == 1 || d / 2 < k)
      decreases k - d
    {
      FastFourier.PowerDouble(d);
      d := d * 2;
    }
  }

  /**
   * The bin product of lines 84-88: each bin of the block's spectrum times
   * the same bin of the kernel's, as complex numbers.
   */
  method MultiplyBins(re: array<real>, im: array<real>, kre: seq<real>, kim: seq<real>)
    requires re != im && re.Length == im.Length <= |kre| && re.Length <= |kim|
    modifies re, im
    ensures forall i :: 0 <= i < re.Length ==>
      FastFourier.Phasor(re[i], im[i]) == FastFourier.Mul(FastFourier.Phasor(old(re[i]), old(im[i])), FastFourier.Phasor(kre[i], kim[i]))
  {
    for i := 0 to re.Length
      invariant forall j :: 0 <= j < i ==>
        FastFourier.Phasor(re[j], im[j]) == FastFourier.Mul(FastFourier.Phasor(old(re[j]), old(im[j])), FastFourier.Phasor(kre[j], kim[j]))
      invariant forall j :: i <= j < re.Length ==> re[j] == old(re[j]) && im[j] == old(im[j])
    {
      var temp := re[i] * kre[i] - im[i] * kim[i];
      im[i] := re[i] * kim[i] + im[i] * kre[i];
      re[i] := temp;
    }
  }

  /** The copy loops: dst[dstOff + i] = src[srcOff + i] for i < len. */
  method CopyRange(src: array<real>, srcOff: int, dst: array<real>, dstOff: int, len: int)
    requires src != dst && 0 <= len
    requires 0 <= srcOff && srcOff + len <= src.Length && 0 <= dstOff && dstOff + len <= dst.Length
    modifies dst
    ensures dst[..] == old(dst[..dstOff]) + src[srcOff..srcOff + len] + old(dst[dstOff + len..])
  {
    for i := 0 to len
      invariant dst[..] == old(dst[..dstOff]) + src[srcOff..srcOff + i] + old(dst[dstOff + i..])
    {
      dst[dstOff + i] := src[srcOff + i];
    }
  }

  /** Lines 95-97: the carried overlap added into the front of the inverse transform. */
  method OverlapAdd(work: array<real>, overlap: array<real>)
    requires work != overlap && overlap.Length <= work.Length
    modifies work
    ensures work[..] == AddPrefix(old(work[..]), overlap[..])
  {
    for i := 0 to overlap.Length
      invariant forall j :: 0 <= j < i ==> work[j] == old(work[j]) + overlap[j]
      invariant forall j :: i <= j < work.Length ==> work[j] == old(work[j])
    {
      work[i] := work[i] + overlap[i];
    }
  }

  class ConvolutionFilter {
    /** `filterKernelSize`: K. */
    const filterKernelSize: int
    /** `dftSize`: the smallest power of two >= K. */
    const dftSize: int
    /** `sampleCount`: the block length `filter` accepts. */
    const sampleCount: int
    /** `kreal` before its transform: the kernel's taps padded with zeros to 2·dftSize. */
    const kernelImage: seq<real>
    /** `overlap`: the K - 1 outputs carried into the next block. */
    const overlap: array<real>

    /** All samples filtered so far, and all outputs returned so far. */
    ghost var consumed: seq<real>
    ghost var emitted: seq<real>

    /** The kernel's K taps. */
    function KernelTaps(): seq<real>
      requires 0 <= filterKernelSize <= |kernelImage|
    {
      kernelImage[..filterKernelSize]
    }

    ghost predicate Valid()
      reads this, overlap
    {
      && 1 <= filterKernelSize <= dftSize && IsPowerOfTwo(dftSize)
      && sampleCount == 2 * dftSize - (filterKernelSize - 1)
      && |kernelImage| == 2 * dftSize && ZeroFrom(kernelImage, filterKernelSize)
      && overlap.Length == filterKernelSize - 1
      && emitted + overlap[..] == Linear(consumed, KernelTaps())
    }

    /**
     * `ConvolutionFilter(filterKernel)`: dftSize is the smallest power of
     * two >= K, the kernel is applied into a zeroed array of 2·dftSize,
     * sampleCount = 2·dftSize - (K - 1), and the overlap starts as K - 1
     * zeros.
     */
    constructor (kernel: FilterKernels.Kernel)
      requires FilterKernels.WellFormed(kernel) && FilterKernels.Size(kernel) >= 1
      ensures Valid() && consumed == [] && emitted == []
      ensures filterKernelSize == FilterKernels.Size(kernel)
      ensures forall p :: IsPowerOfTwo(p) && filterKernelSize <= p ==> dftSize <= p
      ensures KernelTaps() == FilterKernels.Taps(kernel)
      ensures sampleCount > filterKernelSize - 1
      ensures fresh(overlap) && overlap[..] == seq(filterKernelSize - 1, _ => 0.0)
    {
      var k := FilterKernels.Size(kernel);
      var d := DftSizeFor(k);
      var kreal := new real[2 * d](_ => 0.0);
      ghost var zeros := kreal[..];
      FilterKernels.Apply(kernel, kreal);
      FilterKernels.AppliedRegions(kernel, zeros);
      filterKernelSize := k;
      dftSize := d;
      kernelImage := kreal[..];
      sampleCount := 2 * d - (k - 1);
      overlap := new real[k - 1](_ => 0.0);
      consumed := [];
      emitted := [];
      new;
      LinearOfEmpty(KernelTaps());
      forall p | IsPowerOfTwo(p) && k <= p
        ensures d <= p
      {
        SmallestPowerAtLeast(k, d, p);
      }
    }

    /**
     * Lines 74-90: the block padded with zeros to 2·dftSize, then transformed,
     * multiplied by the kernel's bins and transformed back; that is, its
     * circular convolution with the kernel image, which the padding makes
     * the linear convolution.
     */
    method ConvolveBlock(signal: array<real>) returns (work: array<real>)
      requires Valid() && signal.Length == sampleCount
      ensures fresh(work) && work[..] == Linear(signal[..], KernelTaps())
    {
      var n := 2 * dftSize;
      var padded := new real[n](_ => 0.0);
      CopyRange(signal, 0, padded, 0, signal.Length);
      assert padded[..signal.Length] == signal[..];
      assert ZeroFrom(padded[..], signal.Length);
      CircularIsLinear(padded[..], kernelImage, signal.Length, filterKernelSize);
      var y := Circular(padded[..], kernelImage);
      work := new real[n](i requires 0 <= i < n => y[i]);
      assert work[..] == y;
    }

    /**
     * `filter(signal)`: a block of any length but sampleCount is refused
     * with nothing changed; otherwise the block is replaced by its filtered
     * outputs and the overlap by what spills past it.
     */
    method Filter(signal: array<real>) returns (r: Result<()>)
      requires Valid()
      modifies this, signal, overlap
      ensures Valid()
      ensures r.Failure? <==> signal.Length != sampleCount
      ensures r.Failure? ==>
        && r.error == IllegalArgumentException
        && signal[..] == old(signal[..]) && overlap[..] == old(overlap[..])
        && consumed == old(consumed) && emitted == old(emitted)
      ensures r.Success? ==>
        && signal[..] == FilterBlock(old(signal[..]), KernelTaps(), old(overlap[..])).output
        && overlap[..] == FilterBlock(old(signal[..]), KernelTaps(), old(overlap[..])).overlap
        && consumed == old(consumed) + old(signal[..]) && emitted == old(emitted) + signal[..]
    {
      if signal.Length != sampleCount {
        return Failure(IllegalArgumentException);
      }
      ghost var s := signal[..];
      ghost var o := overlap[..];
      var work := ConvolveBlock(signal);
      ghost var y := work[..];
      OverlapAdd(work, overlap);
      CopyRange(work, work.Length - overlap.Length, overlap, 0, overlap.Length);
      CopyRange(work, 0, signal, 0, sampleCount);
      assert overlap[..] == y[signal.Length..];
      assert signal[..] == AddPrefix(y, o)[..signal.Length];
      FilterBlockExtends(consumed, emitted, o, s, KernelTaps());
      consumed := consumed + s;
      emitted := emitted + signal[..];
      return Success(());
    }
  }
}
