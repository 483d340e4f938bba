/**
 * `FilterKernel` and its implementations: a kernel reports its size and
 * writes its coefficients into the front of a caller's buffer. The
 * interface becomes a datatype with one constructor per implementation:
 * `FilterKernelRaw` and the two anonymous kernels of `FilterKernelFactory`.
 * `Math.sin` (inside the high-pass kernel's `SignalGenerator`) is a
 * parameter.
 */
module FilterKernels {
  import opened JavaTypes
  import opened SignalGenerators

  datatype Kernel =
    /** `FilterKernelRaw(h)`: h itself, shared with the caller, not copied. */
    | Raw(h: array<real>)
    /** `lowPass(hz)`: -0.1 everywhere and 2 in the middle. */
    | LowPass(length: int)
    /** `highPass(hz)`: half a cycle of a unit sine at hz. */
    | HighPass(hz: real, sampleRate: int, length: int, sin: real -> real)

  /** `getSize()`. */
  function Size(k: Kernel): int
  {
    match k
    case Raw(h) => h.Length
    case LowPass(length) => length
    case HighPass(_, _, length, _) => length
  }

  /** The factory's kernel size `(int)(sampleRate / hz / 2)`: the samples in half a cycle of hz. */
  function KernelLength(sampleRate: int, hz: real): (n: int)
    requires hz > 0.0 && sampleRate >= 0
    ensures 0 <= n && (n < 0x7fff_ffff ==> n as real <= sampleRate as real / hz / 2.0 < n as real + 1.0)
  {
    DoubleToInt(sampleRate as real / hz / 2.0)
  }

  /** `FilterKernelFactory(sampleRate)`. */
  datatype Factory = Factory(sampleRate: int)
  {
    /** `lowPass(hz)`. */
    function LowPassKernel(hz: real): (k: Kernel)
      requires hz > 0.0 && sampleRate >= 0
      ensures k.LowPass? && Size(k) == KernelLength(sampleRate, hz)
    {
      LowPass(KernelLength(sampleRate, hz))
    }

    /** `highPass(hz)`: its generator runs at this sample rate. */
    function HighPassKernel(hz: real, sin: real -> real): (k: Kernel)
      requires hz > 0.0 && sampleRate >= 0
      ensures k.HighPass? && k.hz == hz && k.sampleRate == sampleRate && Size(k) == KernelLength(sampleRate, hz)
    {
      HighPass(hz, sampleRate, KernelLength(sampleRate, hz), sin)
    }
  }

  /** A kernel whose size is not negative and whose generator has a sample rate to divide by. */
  predicate WellFormed(k: Kernel)
  {
    match k
    case Raw(_) => true
    case LowPass(length) => 0 <= length
    case HighPass(_, sampleRate, length, _) => 0 <= length && sampleRate > 0
  }

  /** The buffer lengths `apply` accepts without an index out of bounds. */
  predicate Fits(k: Kernel, n: int)
  {
    && WellFormed(k)
    && Size(k) <= n
    && (k.LowPass? ==> k.length / 2 < n)
  }

  /** The radians per sample of the high-pass kernel's generator. */
  function Radians(hz: real, sampleRate: int): real
    requires sampleRate > 0
  {
    2.0 * PI * hz / sampleRate as real
  }

  /** The kernel's coefficients: what `apply` leaves in buffer[0 .. getSize()). */
  function Taps(k: Kernel): (t: seq<real>)
    requires WellFormed(k)
    reads if k.Raw? then {k.h} else {}
    ensures |t| == Size(k)
  {
    match k
    case Raw(h) => h[..]
    case LowPass(length) => seq(length, i => if i == length / 2 then 2.0 else -0.1)
    case HighPass(hz, sampleRate, length, sin) => Values(1, Radians(hz, sampleRate), sin, 0, length)
  }

  /** The buffer b after `apply`, position by position as the loops write it. */
  function Applied(k: Kernel, b: seq<real>): (r: seq<real>)
    requires Fits(k, |b|)
    reads if k.Raw? then {k.h} else {}
    ensures |r| == |b|
  {
    match k
    case Raw(h) => seq(|b|, i requires 0 <= i < |b| reads h => if i < h.Length then h[i] else b[i])
    case LowPass(length) => seq(|b|, i requires 0 <= i < |b| => if i == length / 2 then 2.0 else if i < length then -0.1 else b[i])
    case HighPass(hz, sampleRate, length, sin) =>
      var v := Values(1, Radians(hz, sampleRate), sin, 0, length);
      seq(|b|, i requires 0 <= i < |b| => if i < length then v[i] else b[i])
  }

  /**
   * `apply` writes the kernel's coefficients into the front of the buffer
   * and leaves the rest alone, except that a low-pass kernel of size 0
   * still writes 2 into buffer[0].
   */
  lemma AppliedRegions(k: Kernel, b: seq<real>)
    requires Fits(k, |b|)
    ensures WellFormed(k) && Applied(k, b)[..Size(k)] == Taps(k)
    ensures !(k.LowPass? && k.length == 0) ==> Applied(k, b)[Size(k)..] == b[Size(k)..]
    ensures k.LowPass? && k.length == 0 ==> Applied(k, b)[0] == 2.0 && Applied(k, b)[1..] == b[1..]
  {
    var r := Applied(k, b);
    assert r[..Size(k)] == Taps(k);
  }

  /** Applying a kernel twice leaves the buffer as applying it once. */
  lemma ApplyIdempotent(k: Kernel, b: seq<real>)
    requires Fits(k, |b|)
    ensures Applied(k, Applied(k, b)) == Applied(k, b)
  {
    var r := Applied(k, b);
    assert Applied(k, r) == r;
  }

  /** `apply(buffer)`. A raw kernel's own array is never written, even when it is the buffer itself. */
  method Apply(k: Kernel, buffer: array<real>)
    requires Fits(k, buffer.Length)
    modifies buffer
    ensures buffer[..] == old(Applied(k, buffer[..]))
    ensures k.Raw? ==> k.h[..] == old(k.h[..])
  {
    if k.Raw? {
      var h := k.h;
      for i := 0 to h.Length
        invariant forall j :: 0 <= j < i ==> buffer[j] == old(h[j])
        invariant forall j :: i <= j < buffer.Length ==> buffer[j] == old(buffer[j])
        invariant forall j :: 0 <= j < h.Length ==> h[j] == old(h[j])
      {
        buffer[i] := h[i];
      }
    } else if k.LowPass? {
      var length := k.length;
      for i := 0 to length
        invariant forall j :: 0 <= j < i ==> buffer[j] == -0.1
        invariant forall j :: i <= j < buffer.Length ==> buffer[j] == old(buffer[j])
      {
        buffer[i] := -0.1;
      }
      buffer[length / 2] := 2.0;
    } else {
      var generator := new SignalGenerator.WithAmplitude(k.hz, k.sampleRate, 1, k.sin);
      var _ := generator.ReadDoubles(buffer, 0, k.length);
    }
  }
}
