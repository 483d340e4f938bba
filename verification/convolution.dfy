/**
 * `Convolution.convolve`: direct convolution of two `short` arrays,
 * accumulated into a third. Every product is added into y[x_i + h_i] by
 * the `short` compound assignment, so each entry keeps the 16-bit wrap of
 * its old value plus its products. `y_off` is accepted and never read.
 */
module Convolutions {
  import opened JavaTypes

  /** x[i]·h[t - i] when t - i indexes h, else 0: the contribution of x[i] to output t. */
  function Term(x: seq<Short>, h: seq<Short>, t: int, i: int): int
    requires 0 <= i < |x|
  {
    if 0 <= t - i < |h| then x[i] as int * h[t - i] as int else 0
  }

  /** The contributions of x[0 .. n) to output t. */
  function ConvUpTo(x: seq<Short>, h: seq<Short>, t: int, n: int): int
    requires 0 <= n <= |x|
    decreases n
  {
    if n == 0 then 0 else ConvUpTo(x, h, t, n - 1) + Term(x, h, t, n - 1)
  }

  /** Output t of the linear convolution of x and h: the sum of x[i]·h[j] over i + j == t. */
  function ConvSum(x: seq<Short>, h: seq<Short>, t: int): int
  {
    ConvUpTo(x, h, t, |x|)
  }

  /** The part of the contribution of x[i] to output t that the first j passes of the inner loop add. */
  function RowPart(x: seq<Short>, h: seq<Short>, t: int, i: int, j: int): int
    requires 0 <= i < |x|
  {
    if t - i < j then Term(x, h, t, i) else 0
  }

  /** The 16-bit wrap forgets whole multiples of 2^16, so wrapping a partial sum early changes nothing. */
  lemma ToShortAdd(a: int, b: int)
    ensures ToShort(ToShort(a) + b) == ToShort(a + b)
  {
    var s := ToShort(a);
    var q := (s - a) / 0x1_0000;
    assert s - a == q * 0x1_0000;
    ToShortShift(a + b, q);
  }

  lemma ToShortShift(x: int, q: int)
    ensures ToShort(x + q * 0x1_0000) == ToShort(x)
  {
    var m := x % 0x1_0000;
    var d := x / 0x1_0000;
    assert x + q * 0x1_0000 == (d + q) * 0x1_0000 + m;
    assert (x + q * 0x1_0000) % 0x1_0000 == m;
  }

  /** Outputs outside [0, |x| + |h| - 2] receive no contribution. */
  lemma {:induction false} ConvSupport(x: seq<Short>, h: seq<Short>, t: int, n: int)
    requires 0 <= n <= |x| && (t < 0 || t > |x| + |h| - 2)
    ensures ConvUpTo(x, h, t, n) == 0
    decreases n
  {
    if n > 0 {
      ConvSupport(x, h, t, n - 1);
    }
  }

  /** Extending x on the right leaves the contributions of its first n entries alone. */
  lemma {:induction false} ConvUpToAppend(x: seq<Short>, a: Short, h: seq<Short>, t: int, n: int)
    requires 0 <= n <= |x|
    ensures ConvUpTo(x + [a], h, t, n) == ConvUpTo(x, h, t, n)
    decreases n
  {
    if n > 0 {
      ConvUpToAppend(x, a, h, t, n - 1);
      assert (x + [a])[n - 1] == x[n - 1];
    }
  }

  /** Extending the second operand by a adds h[t - |x|]·a to output t. */
  lemma {:induction false} ConvUpToAppendRight(h: seq<Short>, x: seq<Short>, a: Short, t: int, n: int)
    requires 0 <= n <= |h|
    ensures ConvUpTo(h, x + [a], t, n) == ConvUpTo(h, x, t, n) + (if 0 <= t - |x| < n then h[t - |x|] as int * a as int else 0)
    decreases n
  {
    if n > 0 {
      ConvUpToAppendRight(h, x, a, t, n - 1);
      var i := n - 1;
      if 0 <= t - i < |x| {
        assert (x + [a])[t - i] == x[t - i];
      }
    }
  }

  /** A convolution with an empty operand on the right is zero everywhere. */
  lemma {:induction false} ConvUpToEmpty(h: seq<Short>, t: int, n: int)
    requires 0 <= n <= |h|
    ensures ConvUpTo(h, [], t, n) == 0
    decreases n
  {
    if n > 0 {
      ConvUpToEmpty(h, t, n - 1);
    }
  }

  /** Convolution is commutative: swapping the signal and the kernel gives the same outputs. */
  lemma {:induction false} ConvCommutes(x: seq<Short>, h: seq<Short>, t: int)
    ensures ConvSum(x, h, t) == ConvSum(h, x, t)
    decreases |x|
  {
    if |x| == 0 {
      ConvUpToEmpty(h, t, |h|);
    } else {
      var x', a := x[..|x| - 1], x[|x| - 1];
      assert x == x' + [a];
      ConvCommutes(x', h, t);
      ConvUpToAppend(x', a, h, t, |x'|);
      ConvUpToAppendRight(h, x', a, t, |h|);
    }
  }

  /**
   * `convolve(x, x_off, x_len, h, h_off, h_len, y, y_off)`: every entry y[k]
   * ends as the 16-bit wrap of its old value plus output k - x_off - h_off
   * of the convolution of the two slices; entries outside
   * [x_off + h_off, x_off + x_len + h_off + h_len - 2] keep their values.
   */
  method Convolve(x: array<Short>, xOff: nat, xLen: nat, h: array<Short>, hOff: nat, hLen: nat, y: array<Short>, yOff: int)
    requires y != x && y != h
    requires xOff + xLen <= x.Length && hOff + hLen <= h.Length
    requires xLen > 0 && hLen > 0 ==> xOff + xLen + hOff + hLen - 1 <= y.Length
    modifies y
    ensures forall k :: 0 <= k < y.Length ==>
      y[k] == ToShort(old(y[k]) + ConvSum(x[xOff..xOff + xLen], h[hOff..hOff + hLen], k - xOff - hOff))
    ensures forall k :: 0 <= k < y.Length && (k < xOff + hOff || k > xOff + xLen + hOff + hLen - 2) ==> y[k] == old(y[k])
  {
    ghost var xs, hs := x[xOff..xOff + xLen], h[hOff..hOff + hLen];
    var d := xOff + hOff;
    for i := 0 to xLen
      invariant AccumulatedRows(y[..], old(y[..]), xs, hs, d, i)
    {
      AccumulateRow(y, old(y[..]), xs, hs, d, i, x[xOff + i], h, hOff, hLen);
    }
    RowsDone(y[..], old(y[..]), xs, hs, d);
  }

  /** One pass of the outer loop: the products of x[x_i] with every kernel entry, h_i = h_off, ... */
  method AccumulateRow(y: array<Short>, ghost y0: seq<Short>, ghost xs: seq<Short>, ghost hs: seq<Short>, d: int, i: int,
                       xi: Short, h: array<Short>, hOff: nat, hLen: nat)
    requires y != h && |y0| == y.Length && 0 <= i < |xs| && xi == xs[i] && d >= 0 && (|hs| > 0 ==> d + |xs| + |hs| - 1 <= y.Length)
    requires hLen == |hs| && hOff + hLen <= h.Length && hs == h[hOff..hOff + hLen]
    requires AccumulatedRows(y[..], y0, xs, hs, d, i)
    modifies y
    ensures AccumulatedRows(y[..], y0, xs, hs, d, i + 1)
  {
    RowStart(y[..], y0, xs, hs, d, i);
    for j := 0 to hLen
      invariant Accumulated(y[..], y0, xs, hs, d, i, j)
    {
      AccumulateStep(y, y0, xs, hs, d, i, j, xi as int * h[hOff + j] as int);
    }
    RowEnd(y[..], y0, xs, hs, d, i);
  }

  /** All rows added: each entry holds its whole output, and entries no product reaches are untouched. */
  lemma RowsDone(y: seq<Short>, y0: seq<Short>, xs: seq<Short>, hs: seq<Short>, d: int)
    requires |y| == |y0| && AccumulatedRows(y, y0, xs, hs, d, |xs|)
    ensures forall k :: 0 <= k < |y| ==> y[k] == ToShort(y0[k] + ConvSum(xs, hs, k - d))
    ensures forall k :: 0 <= k < |y| && (k < d || k > d + |xs| + |hs| - 2) ==> y[k] == y0[k]
  {
    forall k | 0 <= k < |y| && (k < d || k > d + |xs| + |hs| - 2)
      ensures y[k] == y0[k]
    {
      ConvSupport(xs, hs, k - d, |xs|);
    }
  }

  /** The outer-loop invariant after the first i rows, against the entries y0 had on entry. */
  ghost predicate AccumulatedRows(y: seq<Short>, y0: seq<Short>, xs: seq<Short>, hs: seq<Short>, d: int, i: int)
    requires |y| == |y0| && 0 <= i <= |xs|
  {
    forall k :: 0 <= k < |y| ==> y[k] == ToShort(y0[k] + ConvUpTo(xs, hs, k - d, i))
  }

  /** A row starts with nothing of it added yet. */
  lemma RowStart(y: seq<Short>, y0: seq<Short>, xs: seq<Short>, hs: seq<Short>, d: int, i: int)
    requires |y| == |y0| && 0 <= i < |xs| && AccumulatedRows(y, y0, xs, hs, d, i)
    ensures Accumulated(y, y0, xs, hs, d, i, 0)
  {
    forall k | 0 <= k < |y|
      ensures y[k] == ToShort(y0[k] + ConvUpTo(xs, hs, k - d, i) + RowPart(xs, hs, k - d, i, 0))
    {
      assert RowPart(xs, hs, k - d, i, 0) == 0;
    }
  }

  /** A finished row has added the whole contribution of x[i]. */
  lemma RowEnd(y: seq<Short>, y0: seq<Short>, xs: seq<Short>, hs: seq<Short>, d: int, i: int)
    requires |y| == |y0| && 0 <= i < |xs| && Accumulated(y, y0, xs, hs, d, i, |hs|)
    ensures AccumulatedRows(y, y0, xs, hs, d, i + 1)
  {
    forall k | 0 <= k < |y|
      ensures y[k] == ToShort(y0[k] + ConvUpTo(xs, hs, k - d, i + 1))
    {
      assert ConvUpTo(xs, hs, k - d, i + 1) == ConvUpTo(xs, hs, k - d, i) + RowPart(xs, hs, k - d, i, |hs|);
    }
  }

  /** The inner-loop invariant after the first j passes for row i, against the entries y0 had on entry. */
  ghost predicate Accumulated(y: seq<Short>, y0: seq<Short>, xs: seq<Short>, hs: seq<Short>, d: int, i: int, j: int)
    requires |y| == |y0| && 0 <= i < |xs|
  {
    forall k :: 0 <= k < |y| ==> y[k] == ToShort(y0[k] + ConvUpTo(xs, hs, k - d, i) + RowPart(xs, hs, k - d, i, j))
  }

  /** One pass of the inner loop: y[d + i + j] += x[i]·h[j] as a `short`. */
  method AccumulateStep(y: array<Short>, ghost y0: seq<Short>, ghost xs: seq<Short>, ghost hs: seq<Short>, d: int,
                        i: int, j: int, product: int)
    requires |y0| == y.Length && 0 <= i < |xs| && 0 <= j < |hs| && d >= 0 && d + |xs| + |hs| - 1 <= y.Length
    requires product == xs[i] as int * hs[j] as int && Accumulated(y[..], y0, xs, hs, d, i, j)
    modifies y
    ensures Accumulated(y[..], y0, xs, hs, d, i, j + 1)
  {
    var k := d + i + j;
    ghost var before := y[..];
    ToShortAdd(y0[k] + ConvUpTo(xs, hs, k - d, i) + RowPart(xs, hs, k - d, i, j), product);
    y[k] := ToShort(y[k] + product);
    forall k' | 0 <= k' < y.Length
      ensures y[k'] == ToShort(y0[k'] + ConvUpTo(xs, hs, k' - d, i) + RowPart(xs, hs, k' - d, i, j + 1))
    {
      if k' != k {
        assert y[k'] == before[k'];
        assert RowPart(xs, hs, k' - d, i, j + 1) == RowPart(xs, hs, k' - d, i, j);
      }
    }
  }
  /** `convolve(x, x_off, x_len, h, y, y_off)`: the whole kernel. */
  method ConvolveSignalRange(x: array<Short>, xOff: nat, xLen: nat, h: array<Short>, y: array<Short>, yOff: int)
    requires y != x && y != h && xOff + xLen <= x.Length
    requires xLen > 0 && h.Length > 0 ==> xOff + xLen + h.Length - 1 <= y.Length
    modifies y
    ensures forall k :: 0 <= k < y.Length ==> y[k] == ToShort(old(y[k]) + ConvSum(x[xOff..xOff + xLen], h[..], k - xOff))
  {
    Convolve(x, xOff, xLen, h, 0, h.Length, y, yOff);
    assert h[0..h.Length] == h[..];
  }

  /** `convolve(x, h, h_off, h_len, y, y_off)`: the whole signal. */
  method ConvolveKernelRange(x: array<Short>, h: array<Short>, hOff: nat, hLen: nat, y: array<Short>, yOff: int)
    requires y != x && y != h && hOff + hLen <= h.Length
    requires x.Length > 0 && hLen > 0 ==> x.Length + hOff + hLen - 1 <= y.Length
    modifies y
    ensures forall k :: 0 <= k < y.Length ==> y[k] == ToShort(old(y[k]) + ConvSum(x[..], h[hOff..hOff + hLen], k - hOff))
  {
    Convolve(x, 0, x.Length, h, hOff, hLen, y, yOff);
    assert x[0..x.Length] == x[..];
  }

  /** `convolve(x, h, y, y_off)`: both arrays whole. */
  method ConvolveWhole(x: array<Short>, h: array<Short>, y: array<Short>, yOff: int)
    requires y != x && y != h
    requires x.Length > 0 && h.Length > 0 ==> x.Length + h.Length - 1 <= y.Length
    modifies y
    ensures forall k :: 0 <= k < y.Length ==> y[k] == ToShort(old(y[k]) + ConvSum(x[..], h[..], k))
  {
    Convolve(x, 0, x.Length, h, 0, h.Length, y, yOff);
    assert x[0..x.Length] == x[..] && h[0..h.Length] == h[..];
  }

  /** `convolve(x, x_off, x_len, h, y)`: as `ConvolveSignalRange` with y_off 0. */
  method ConvolveSignalRangeAtStart(x: array<Short>, xOff: nat, xLen: nat, h: array<Short>, y: array<Short>)
    requires y != x && y != h && xOff + xLen <= x.Length
    requires xLen > 0 && h.Length > 0 ==> xOff + xLen + h.Length - 1 <= y.Length
    modifies y
    ensures forall k :: 0 <= k < y.Length ==> y[k] == ToShort(old(y[k]) + ConvSum(x[xOff..xOff + xLen], h[..], k - xOff))
  {
    Convolve(x, xOff, xLen, h, 0, h.Length, y, 0);
    assert h[0..h.Length] == h[..];
  }

  /** `convolve(x, h, h_off, h_len, y)`: as `ConvolveKernelRange` with y_off 0. */
  method ConvolveKernelRangeAtStart(x: array<Short>, h: array<Short>, hOff: nat, hLen: nat, y: array<Short>)
    requires y != x && y != h && hOff + hLen <= h.Length
    requires x.Length > 0 && hLen > 0 ==> x.Length + hOff + hLen - 1 <= y.Length
    modifies y
    ensures forall k :: 0 <= k < y.Length ==> y[k] == ToShort(old(y[k]) + ConvSum(x[..], h[hOff..hOff + hLen], k - hOff))
  {
    Convolve(x, 0, x.Length, h, hOff, hLen, y, 0);
    assert x[0..x.Length] == x[..];
  }

  /**
   * `convolve(x, h, y)`: both arrays whole, y_off 0. By `ConvCommutes`,
   * swapping x and h leaves every output the same.
   */
  method ConvolveWholeAtStart(x: array<Short>, h: array<Short>, y: array<Short>)
    requires y != x && y != h
    requires x.Length > 0 && h.Length > 0 ==> x.Length + h.Length - 1 <= y.Length
    modifies y
    ensures forall k :: 0 <= k < y.Length ==> y[k] == ToShort(old(y[k]) + ConvSum(x[..], h[..], k))
    ensures forall k :: 0 <= k < y.Length ==> y[k] == ToShort(old(y[k]) + ConvSum(h[..], x[..], k))
  {
    Convolve(x, 0, x.Length, h, 0, h.Length, y, 0);
    assert x[0..x.Length] == x[..] && h[0..h.Length] == h[..];
    forall k | 0 <= k < y.Length
      ensures ConvSum(x[..], h[..], k) == ConvSum(h[..], x[..], k)
    {
      ConvCommutes(x[..], h[..], k);
    }
  }
}
