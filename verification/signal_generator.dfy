/**
 * `SignalGenerator`: a sine carrier read one sample at a time. A sample
 * counter, kept across reads and reset only by tuning, makes consecutive
 * reads continue the same wave. `Math.sin` is a parameter.
 */
module SignalGenerators {
  import opened JavaTypes

  /** The sample at index s: `amplitude * sin(w * s)`. */
  function ValueAt(amplitude: Short, w: real, sin: real -> real, s: int): real
  {
    amplitude as real * sin(w * s as real)
  }

  /** n samples from index start, as `double`s. */
  function Values(amplitude: Short, w: real, sin: real -> real, start: int, n: nat): (v: seq<real>)
    ensures |v| == n && forall i :: 0 <= i < n ==> v[i] == ValueAt(amplitude, w, sin, start + i)
  {
    seq(n, i => ValueAt(amplitude, w, sin, start + i))
  }

  /** n samples from index start, cast to `short`. */
  function ShortValues(amplitude: Short, w: real, sin: real -> real, start: int, n: nat): (v: seq<Short>)
    ensures |v| == n && forall i :: 0 <= i < n ==> v[i] == DoubleToShort(ValueAt(amplitude, w, sin, start + i))
  {
    seq<Short>(n, i => DoubleToShort(ValueAt(amplitude, w, sin, start + i)))
  }

  /**
   * The carrier is continuous across reads: n samples from `start`, then
   * m samples from where they stopped, are the n + m samples from `start`.
   */
  lemma ValuesSplit(amplitude: Short, w: real, sin: real -> real, start: int, n: nat, m: nat)
    ensures Values(amplitude, w, sin, start, n) + Values(amplitude, w, sin, start + n, m) == Values(amplitude, w, sin, start, n + m)
    ensures ShortValues(amplitude, w, sin, start, n) + ShortValues(amplitude, w, sin, start + n, m) == ShortValues(amplitude, w, sin, start, n + m)
  {
    var a, b := Values(amplitude, w, sin, start, n) + Values(amplitude, w, sin, start + n, m), Values(amplitude, w, sin, start, n + m);
    forall i | 0 <= i < n + m
      ensures a[i] == b[i]
    {
      if i >= n {
        var j := i - n;
        assert start + n + j == start + i;
      }
    }
    var c, d := ShortValues(amplitude, w, sin, start, n) + ShortValues(amplitude, w, sin, start + n, m), ShortValues(amplitude, w, sin, start, n + m);
    forall i | 0 <= i < n + m
      ensures c[i] == d[i]
    {
      if i >= n {
        var j := i - n;
        assert start + n + j == start + i;
      }
    }
  }

  class SignalGenerator {
    const sampleRate: int

    /** `Math.sin`. */
    const sin: real -> real

    var hz: real

    /** The index of the next sample: how many samples have been read since the last tune. */
    var sample: int

    /** Radians per sample: `2 * PI * hz / sampleRate`. */
    var w: real

    var amplitude: Short

    /** `SignalGenerator(hz, sampleRate)`: full-scale amplitude. */
    constructor (hz: real, sampleRate: int, sin: real -> real)
      requires sampleRate != 0
      ensures this.sampleRate == sampleRate && this.sin == sin && amplitude == 0x7fff
      ensures this.hz == hz && sample == 0 && w == 2.0 * PI * hz / sampleRate as real
    {
      this.sampleRate := sampleRate;
      this.sin := sin;
      this.amplitude := 0x7fff;
      this.hz := hz;
      this.sample := 0;
      this.w := 2.0 * PI * hz / sampleRate as real;
    }

    /** `SignalGenerator(hz, sampleRate, amplitude)`. */
    constructor WithAmplitude(hz: real, sampleRate: int, amplitude: Short, sin: real -> real)
      requires sampleRate != 0
      ensures this.sampleRate == sampleRate && this.sin == sin && this.amplitude == amplitude
      ensures this.hz == hz && sample == 0 && w == 2.0 * PI * hz / sampleRate as real
    {
      this.sampleRate := sampleRate;
      this.sin := sin;
      this.amplitude := amplitude;
      this.hz := hz;
      this.sample := 0;
      this.w := 2.0 * PI * hz / sampleRate as real;
    }

    /** `tune(hz)`: a new frequency, starting again at sample 0. */
    method Tune(hz: real)
      requires sampleRate != 0
      modifies this
      ensures this.hz == hz && sample == 0 && w == 2.0 * PI * hz / sampleRate as real
      ensures amplitude == old(amplitude)
    {
      this.hz := hz;
      this.sample := 0;
      this.w := 2.0 * PI * hz / sampleRate as real;
    }

    /** `read()`: the current sample as a `short`, then advance. */
    method Read() returns (v: Short)
      modifies this
      ensures v == DoubleToShort(ValueAt(amplitude, w, sin, old(sample)))
      ensures sample == old(sample) + 1 && w == old(w) && amplitude == old(amplitude) && hz == old(hz)
    {
      v := DoubleToShort(ValueAt(amplitude, w, sin, sample));
      sample := sample + 1;
    }

    /** `readDouble()`: the current sample as a `double`, then advance. */
    method ReadDouble() returns (v: real)
      modifies this
      ensures v == ValueAt(amplitude, w, sin, old(sample))
      ensures sample == old(sample) + 1 && w == old(w) && amplitude == old(amplitude) && hz == old(hz)
    {
      v := ValueAt(amplitude, w, sin, sample);
      sample := sample + 1;
    }

    /** `read(data, off, len)`: fill data[off .. off + len) with the next len samples as `short`s; a len that is not positive reads nothing and is returned as it is. */
    method ReadShorts(data: array<Short>, off: int, len: int) returns (n: int)
      requires len > 0 ==> 0 <= off && off + len <= data.Length
      modifies this, data
      ensures n == len && w == old(w) && amplitude == old(amplitude) && hz == old(hz)
      ensures len <= 0 ==> sample == old(sample) && data[..] == old(data[..])
      ensures len > 0 ==> sample == old(sample) + len
      ensures len > 0 ==> data[off..off + len] == ShortValues(amplitude, w, sin, old(sample), len)
      ensures len > 0 ==> data[..off] == old(data[..off]) && data[off + len..] == old(data[off + len..])
    {
      ghost var start := sample;
      var i := off;
      while i < off + len
        invariant len > 0 ==> off <= i <= off + len
        invariant len <= 0 ==> i == off
        invariant sample == start + (i - off) && w == old(w) && amplitude == old(amplitude) && hz == old(hz)
        invariant forall k :: off <= k < i && 0 <= k < data.Length ==> data[k] == DoubleToShort(ValueAt(amplitude, w, sin, start + (k - off)))
        invariant forall k :: 0 <= k < data.Length && !(off <= k < i) ==> data[k] == old(data[k])
      {
        data[i] := Read();
        i := i + 1;
      }
      n := len;
    }

    /** `read(data)`: the whole array. */
    method ReadAllShorts(data: array<Short>) returns (n: int)
      modifies this, data
      ensures n == data.Length && sample == old(sample) + data.Length
      ensures w == old(w) && amplitude == old(amplitude) && hz == old(hz)
      ensures data[..] == ShortValues(amplitude, w, sin, old(sample), data.Length)
    {
      n := ReadShorts(data, 0, data.Length);
      assert data[..] == data[0..data.Length];
    }

    /** `read(data, off, len)` into a `double[]`, likewise. */
    method ReadDoubles(data: array<real>, off: int, len: int) returns (n: int)
      requires len > 0 ==> 0 <= off && off + len <= data.Length
      modifies this, data
      ensures n == len && w == old(w) && amplitude == old(amplitude) && hz == old(hz)
      ensures len <= 0 ==> sample == old(sample) && data[..] == old(data[..])
      ensures len > 0 ==> sample == old(sample) + len
      ensures len > 0 ==> data[off..off + len] == Values(amplitude, w, sin, old(sample), len)
      ensures len > 0 ==> data[..off] == old(data[..off]) && data[off + len..] == old(data[off + len..])
    {
      ghost var start := sample;
      var i := off;
      while i < off + len
        invariant len > 0 ==> off <= i <= off + len
        invariant len <= 0 ==> i == off
        invariant sample == start + (i - off) && w == old(w) && amplitude == old(amplitude) && hz == old(hz)
        invariant forall k :: off <= k < i && 0 <= k < data.Length ==> data[k] == ValueAt(amplitude, w, sin, start + (k - off))
        invariant forall k :: 0 <= k < data.Length && !(off <= k < i) ==> data[k] == old(data[k])
      {
        data[i] := ReadDouble();
        i := i + 1;
      }
      n := len;
    }

    /** `read(data)` into a `double[]`. */
    method ReadAllDoubles(data: array<real>) returns (n: int)
      modifies this, data
      ensures n == data.Length && sample == old(sample) + data.Length
      ensures w == old(w) && amplitude == old(amplitude) && hz == old(hz)
      ensures data[..] == Values(amplitude, w, sin, old(sample), data.Length)
    {
      n := ReadDoubles(data, 0, data.Length);
      assert data[..] == data[0..data.Length];
    }

  }
}
