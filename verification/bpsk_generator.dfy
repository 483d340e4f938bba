/**
 * `BpskGenerator`: the modulator. Each symbol becomes a whole number of
 * 16-bit big-endian audio samples of a carrier; a 0 symbol reverses the
 * carrier's phase, and the half symbols around each reversal are shaped
 * by fading out and in. The audio sample counter runs on from call to
 * call so the carrier stays continuous. `Math.sin` and `Math.cos` are
 * parameters of the model.
 */
module BpskGenerators {
  import opened JavaTypes

  /** `Short.MAX_VALUE * 0.8`: the peak of a generated sample. */
  const Peak: real := 32767.0 * 0.8

  /** `(shift == 0) ? Math.PI : 0`: the phase after a 0 symbol. */
  function Flip(shift: real): real
  {
    if shift == 0.0 then PI else 0.0
  }

  /**
   * The phase shift the modulator uses for symbol i of syms: 0 for the
   * first symbol, reversed by every 0 after it and kept by every 1.
   */
  function Shift(syms: seq<int>, i: nat): (r: real)
    requires i < |syms|
    ensures r == 0.0 || r == PI
  {
    if i == 0 then 0.0
    else if syms[i] == 0 then Flip(Shift(syms, i - 1))
    else Shift(syms, i - 1)
  }

  /** The number of 0 symbols in s. */
  function ZeroCount(s: seq<int>): nat
  {
    if |s| == 0 then 0 else ZeroCount(s[..|s| - 1]) + (if s[|s| - 1] == 0 then 1 else 0)
  }

  /**
   * Symbol i goes out shifted by pi exactly when an odd number of 0s
   * follow the first symbol up to and including symbol i.
   */
  lemma {:induction false} ShiftParity(syms: seq<int>, i: nat)
    requires i < |syms|
    ensures Shift(syms, i) == if ZeroCount(syms[1..i + 1]) % 2 == 1 then PI else 0.0
  {
    if i > 0 {
      ShiftParity(syms, i - 1);
      assert syms[1..i + 1][..i - 1] == syms[1..i];
    }
  }

  /** The first symbol is never looked at: the shifts depend on the others only. */
  lemma {:induction false} ShiftIgnoresFirst(syms: seq<int>, other: seq<int>, i: nat)
    requires |syms| == |other| && i < |syms| && syms[1..] == other[1..]
    ensures Shift(syms, i) == Shift(other, i)
  {
    if i > 0 {
      assert syms[i] == syms[1..][i - 1] == other[i];
      ShiftIgnoresFirst(syms, other, i - 1);
    }
  }

  /**
   * The first index from on whose symbol is neither 0 nor 1: the symbol
   * `generateSignal` throws an `IOException` on.
   */
  function FirstInvalid(syms: seq<int>, from: nat): (r: Option<nat>)
    ensures r.Some? ==> from <= r.value < |syms| && syms[r.value] != 0 && syms[r.value] != 1
    ensures r.Some? ==> forall j :: from <= j < r.value ==> syms[j] == 0 || syms[j] == 1
    ensures r.None? ==> forall j :: from <= j < |syms| ==> syms[j] == 0 || syms[j] == 1
    decreases |syms| - from
  {
    if from >= |syms| then None
    else if syms[from] != 0 && syms[from] != 1 then Some(from)
    else FirstInvalid(syms, from + 1)
  }

  /** The sample `fade` reads back from bytes 2k and 2k + 1: high byte first. */
  function SampleOf(buf: seq<Byte>, k: int): Short
    requires 0 <= k && 2 * k + 1 < |buf|
  {
    Unpack(buf[2 * k], buf[2 * k + 1])
  }

  /** Sample k of buf, stored big-endian in bytes 2k and 2k + 1, is v. */
  predicate SampleIs(buf: seq<Byte>, k: int, v: Short)
  {
    0 <= k && 2 * k + 1 < |buf| && SampleOf(buf, k) == v
  }

  /** Sample k of buf is v exactly when byte 2k is v's high byte and byte 2k + 1 its low byte. */
  lemma SampleIsBytes(buf: seq<Byte>, k: int, v: Short)
    requires 0 <= k && 2 * k + 1 < |buf|
    ensures SampleIs(buf, k, v) <==> buf[2 * k] == HighByte(v) && buf[2 * k + 1] == LowByte(v)
  {
    if SampleIs(buf, k, v) {
      PackUnpack(buf[2 * k], buf[2 * k + 1]);
    }
    if buf[2 * k] == HighByte(v) && buf[2 * k + 1] == LowByte(v) {
      UnpackPack(v);
    }
  }

  /** `(short)((double)s * f)`: a sample scaled by a shaping coefficient. */
  function Scale(s: Short, f: real): Short
  {
    DoubleToShort(s as real * f)
  }

  /**
   * Sample k of orig after `fade(buffer, first, filter)`: scaled by the
   * coefficient for its place in the window.
   */
  function Faded(orig: seq<Byte>, first: int, filter: seq<real>, k: int): Short
    requires 0 <= first <= k < first + |filter| && 2 * k + 1 < |orig|
  {
    Scale(SampleOf(orig, k), filter[k - first])
  }

  /** Fading a stored sample v scales v by the coefficient for its place in the window. */
  lemma FadedIs(orig: seq<Byte>, first: int, filter: seq<real>, k: int, v: Short)
    requires 0 <= first <= k < first + |filter| && SampleIs(orig, k, v)
    ensures Faded(orig, first, filter, k) == Scale(v, filter[k - first])
  {
  }

  /** a and b have the same length and agree everywhere outside [lo, hi). */
  ghost predicate SameOutside(a: seq<Byte>, b: seq<Byte>, lo: int, hi: int)
  {
    |a| == |b| && forall j :: 0 <= j < |a| && !(lo <= j < hi) ==> a[j] == b[j]
  }

  /** Agreement outside two adjacent windows composes into agreement outside their union. */
  lemma SameOutsideJoin(a: seq<Byte>, b: seq<Byte>, c: seq<Byte>, lo: int, mid: int, hi: int)
    requires lo <= mid <= hi
    requires SameOutside(a, b, lo, mid) && SameOutside(b, c, mid, hi)
    ensures SameOutside(a, c, lo, hi)
  {
  }

  /** One more faded sample stored after a run of them, without touching the run. */
  lemma FadedExtend(orig: seq<Byte>, before: seq<Byte>, after: seq<Byte>, first: int, filter: seq<real>, next: int)
    requires 0 <= first <= next < first + |filter| && 2 * (first + |filter|) <= |orig|
    requires forall k :: first <= k < next ==> SampleIs(before, k, Faded(orig, first, filter, k))
    requires SameOutside(before, after, 2 * next, 2 * next + 2)
    requires SampleIs(after, next, Faded(orig, first, filter, next))
    ensures forall k :: first <= k < next + 1 ==> SampleIs(after, k, Faded(orig, first, filter, k))
  {
    forall k | first <= k < next + 1
      ensures SampleIs(after, k, Faded(orig, first, filter, k))
    {
      if k < next {
        assert after[2 * k] == before[2 * k] && after[2 * k + 1] == before[2 * k + 1];
      }
    }
  }

  /** `fade(buffer, sample, filter)`: samples sample, sample + 1, ... scaled by the coefficients in turn. */
  method Fade(buffer: array<Byte>, sample: int, filter: seq<real>)
    requires 0 <= sample && 2 * (sample + |filter|) <= buffer.Length
    modifies buffer
    ensures forall k :: sample <= k < sample + |filter| ==>
      SampleIs(buffer[..], k, Faded(old(buffer[..]), sample, filter, k))
    ensures SameOutside(old(buffer[..]), buffer[..], 2 * sample, 2 * (sample + |filter|))
  {
    for i := 0 to |filter|
      invariant forall k :: sample <= k < sample + i ==>
        SampleIs(buffer[..], k, Faded(old(buffer[..]), sample, filter, k))
      invariant SameOutside(old(buffer[..]), buffer[..], 2 * sample, 2 * (sample + i))
    {
      var bufI := (sample + i) * 2;
      assert buffer[bufI] == old(buffer[bufI]) && buffer[bufI + 1] == old(buffer[bufI + 1]);
      var s := Unpack(buffer[bufI], buffer[bufI + 1]);
      s := Scale(s, filter[i]);
      assert s == Faded(old(buffer[..]), sample, filter, sample + i);
      ghost var before := buffer[..];
      Store(buffer, sample + i, s);
      SameOutsideJoin(old(buffer[..]), before, buffer[..], 2 * sample, 2 * (sample + i), 2 * (sample + i + 1));
      FadedExtend(old(buffer[..]), before, buffer[..], sample, filter, sample + i);
    }
  }

  /** Stores s as sample k of buffer, high byte first, and touches nothing else. */
  method Store(buffer: array<Byte>, k: nat, s: Short)
    requires 2 * k + 1 < buffer.Length
    modifies buffer
    ensures SampleIs(buffer[..], k, s)
    ensures SameOutside(old(buffer[..]), buffer[..], 2 * k, 2 * k + 2)
  {
    buffer[2 * k] := HighByte(s);
    buffer[2 * k + 1] := LowByte(s);
    SampleIsBytes(buffer[..], k, s);
  }

  class BpskGenerator {
    /** `(int) samplesPerSymbol`: audio samples per symbol, a whole number here. */
    const samplesPerSymbol: nat

    /** Radians of carrier per audio sample. */
    const radiansPerSample: real

    /** `Math.cos`. */
    const cos: real -> real

    /** The fade-in coefficients `sin(i pi / samplesPerSymbol)`. */
    const symbolStartFilter: seq<real>

    /** The fade-out coefficients `cos(i pi / samplesPerSymbol)`. */
    const symbolEndFilter: seq<real>

    /** The number of the next audio sample; it only grows. */
    var currentSample: int

    /**
     * At least two samples per symbol, and half a symbol's worth of each
     * kind of coefficient: samplesPerSymbol / 2 of them.
     */
    predicate Valid()
    {
      && samplesPerSymbol >= 2
      && |symbolEndFilter| == |symbolStartFilter|
      && 2 * |symbolStartFilter| <= samplesPerSymbol <= 2 * |symbolStartFilter| + 1
    }

    /**
     * `BpskGenerator(hz, sampleRate, symbolsPerSecond)`, for a sample rate
     * that is a whole multiple of the symbol rate.
     */
    constructor (hz: real, sampleRate: nat, symbolsPerSecond: real, sin: real -> real, cos: real -> real)
      requires sampleRate > 0 && symbolsPerSecond > 0.0
      requires (sampleRate as real / symbolsPerSecond).Floor >= 2
      requires (sampleRate as real / symbolsPerSecond).Floor as real == sampleRate as real / symbolsPerSecond
      ensures Valid()
      ensures samplesPerSymbol as real == sampleRate as real / symbolsPerSecond
      ensures radiansPerSample == hz * 2.0 * PI / sampleRate as real
      ensures this.cos == cos && currentSample == 0
      ensures forall i :: 0 <= i < |symbolStartFilter| ==>
        symbolStartFilter[i] == sin(i as real * PI / samplesPerSymbol as real)
      ensures forall i :: 0 <= i < |symbolEndFilter| ==>
        symbolEndFilter[i] == cos(i as real * PI / samplesPerSymbol as real)
    {
      var perSymbol := (sampleRate as real / symbolsPerSecond).Floor;
      var size := TruncReal(sampleRate as real / symbolsPerSecond / 2.0);
      HalfOfWhole(perSymbol);
      var start: seq<real> := [];
      var end: seq<real> := [];
      var i := 0;
      while i < size
        invariant 0 <= i <= size && |start| == i && |end| == i
        invariant forall j :: 0 <= j < i ==> start[j] == sin(j as real * PI / perSymbol as real)
        invariant forall j :: 0 <= j < i ==> end[j] == cos(j as real * PI / perSymbol as real)
      {
        start := start + [sin(i as real * PI / perSymbol as real)];
        end := end + [cos(i as real * PI / perSymbol as real)];
        i := i + 1;
      }
      samplesPerSymbol := perSymbol;
      radiansPerSample := hz * 2.0 * PI / sampleRate as real;
      this.cos := cos;
      symbolStartFilter := start;
      symbolEndFilter := end;
      currentSample := 0;
    }

    /**
     * Buffer sample k of a carrier at the given phase shift whose buffer
     * sample `first` is audio sample `start`.
     */
    function Tone(start: int, first: int, k: int, shift: real): Short
    {
      DoubleToShort(Peak * Amplitude(start + (k - first), shift))
    }

    /** The carrier's amplitude at audio sample c and the given phase shift. */
    function Amplitude(c: int, shift: real): real
    {
      cos(radiansPerSample * c as real + shift)
    }

    /** One more carrier sample stored after a run of them, without touching the run. */
    lemma ToneExtend(before: seq<Byte>, after: seq<Byte>, start: int, first: int, next: int, shift: real)
      requires 0 <= first <= next
      requires forall k :: first <= k < next ==> SampleIs(before, k, Tone(start, first, k, shift))
      requires SameOutside(before, after, 2 * next, 2 * next + 2)
      requires SampleIs(after, next, Tone(start, first, next, shift))
      ensures forall k :: first <= k < next + 1 ==> SampleIs(after, k, Tone(start, first, k, shift))
    {
      forall k | first <= k < next + 1
        ensures SampleIs(after, k, Tone(start, first, k, shift))
      {
        if k < next {
          assert after[2 * k] == before[2 * k] && after[2 * k + 1] == before[2 * k + 1];
        }
      }
    }

    /**
     * The private `generateSignal(buffer, sample, shift)`: one symbol of
     * carrier from sample on, at the given shift; returns the sample after it.
     */
    method GenerateSymbol(buffer: array<Byte>, sample: nat, shift: real) returns (next: nat)
      requires 2 * (sample + samplesPerSymbol) <= buffer.Length
      modifies this`currentSample, buffer
      ensures next == sample + samplesPerSymbol
      ensures currentSample == old(currentSample) + samplesPerSymbol
      ensures forall k :: sample <= k < next ==>
        SampleIs(buffer[..], k, Tone(old(currentSample), sample, k, shift))
      ensures SameOutside(old(buffer[..]), buffer[..], 2 * sample, 2 * next)
    {
      next := sample;
      for i := 0 to samplesPerSymbol
        invariant next == sample + i
        invariant currentSample == old(currentSample) + i
        invariant forall k :: sample <= k < next ==>
          SampleIs(buffer[..], k, Tone(old(currentSample), sample, k, shift))
        invariant SameOutside(old(buffer[..]), buffer[..], 2 * sample, 2 * next)
      {
        var amplitude := cos(radiansPerSample * currentSample as real + shift);
        assert amplitude == Amplitude(currentSample, shift);
        assert currentSample == old(currentSample) + (next - sample);
        currentSample := currentSample + 1;
        var s := DoubleToShort(Peak * amplitude);
        assert s == Tone(old(currentSample), sample, next, shift);
        ghost var before := buffer[..];
        Store(buffer, next, s);
        SameOutsideJoin(old(buffer[..]), before, buffer[..], 2 * sample, 2 * next, 2 * (next + 1));
        ToneExtend(before, buffer[..], old(currentSample), sample, next, shift);
        next := next + 1;
      }
    }

    /** `fadeIn(buffer, sample)`: half a symbol from sample on, scaled by the fade-in coefficients. */
    method FadeIn(buffer: array<Byte>, sample: int)
      requires Valid() && 0 <= sample && 2 * (sample + Half()) <= buffer.Length
      modifies buffer
      ensures forall k :: sample <= k < sample + Half() ==>
        SampleIs(buffer[..], k, Faded(old(buffer[..]), sample, symbolStartFilter, k))
      ensures SameOutside(old(buffer[..]), buffer[..], 2 * sample, 2 * (sample + Half()))
    {
      Fade(buffer, sample, symbolStartFilter);
    }

    /** `fadeOut(buffer, sample)`: half a symbol from sample on, scaled by the fade-out coefficients. */
    method FadeOut(buffer: array<Byte>, sample: int)
      requires Valid() && 0 <= sample && 2 * (sample + Half()) <= buffer.Length
      modifies buffer
      ensures forall k :: sample <= k < sample + Half() ==>
        SampleIs(buffer[..], k, Faded(old(buffer[..]), sample, symbolEndFilter, k))
      ensures SameOutside(old(buffer[..]), buffer[..], 2 * sample, 2 * (sample + Half()))
    {
      Fade(buffer, sample, symbolEndFilter);
    }

    /** Half a symbol, `samplesPerSymbol / 2`: the length of each shaping window. */
    function Half(): nat
    {
      |symbolStartFilter|
    }

    /**
     * Sample pos of symbol i of the signal for syms before any shaping: the
     * carrier at the shift of symbol i, at audio sample c0 + i S + pos.
     */
    function Raw(c0: int, syms: seq<int>, i: int, pos: int): Short
      requires 0 <= i < |syms|
    {
      Tone(c0, 0, i * samplesPerSymbol + pos, Shift(syms, i))
    }

    /**
     * The coefficient, if any, that the loop over symbols 1 .. n - 1 has
     * applied to sample pos of symbol i: the first half of a 0 symbol is
     * faded in, and the half symbol before it faded out.
     */
    function LoopGain(syms: seq<int>, n: nat, i: int, pos: int): Option<real>
      requires Valid() && n <= |syms| && 0 <= i < |syms| && 0 <= pos < samplesPerSymbol
    {
      if 1 <= i < n && syms[i] == 0 && pos < Half() then Some(symbolStartFilter[pos])
      else if i + 1 < n && syms[i + 1] == 0 && Half() <= pos < 2 * Half() then Some(symbolEndFilter[pos - Half()])
      else None
    }

    /**
     * The coefficient, if any, that sample pos of symbol i of the finished
     * signal has been scaled by: the loop's fades, plus a fade-in over the
     * first half symbol and a fade-out over the last.
     */
    function Gain(syms: seq<int>, i: int, pos: int): Option<real>
      requires Valid() && 0 <= i < |syms| && 0 <= pos < samplesPerSymbol
    {
      if i == 0 && pos < Half() then Some(symbolStartFilter[pos])
      else if i == |syms| - 1 && samplesPerSymbol - Half() <= pos then
        Some(symbolEndFilter[pos - (samplesPerSymbol - Half())])
      else LoopGain(syms, |syms|, i, pos)
    }

    /** Sample pos of symbol i once the loop has handled symbols 0 .. n - 1. */
    function Stage(c0: int, syms: seq<int>, n: nat, i: int, pos: int): Short
      requires Valid() && n <= |syms| && 0 <= i < |syms| && 0 <= pos < samplesPerSymbol
    {
      Shaped(Raw(c0, syms, i, pos), LoopGain(syms, n, i, pos))
    }

    /**
     * Sample pos of symbol i of the signal `generateSignal` returns for syms
     * when the carrier starts at audio sample c0.
     */
    function Out(c0: int, syms: seq<int>, i: int, pos: int): Short
      requires Valid() && 0 <= i < |syms| && 0 <= pos < samplesPerSymbol
    {
      Shaped(Raw(c0, syms, i, pos), Gain(syms, i, pos))
    }

    /** The samples of symbols 0 .. upto - 1 in buf are as the loop leaves them after symbols 0 .. n - 1. */
    ghost predicate StagedBelow(buf: seq<Byte>, c0: int, syms: seq<int>, n: nat, upto: nat)
      requires Valid()
    {
      && n <= |syms| && upto <= |syms|
      && forall i, pos :: 0 <= i < upto && 0 <= pos < samplesPerSymbol ==>
           SampleIs(buf, i * samplesPerSymbol + pos, Stage(c0, syms, n, i, pos))
    }

    /** Rewriting bytes at or beyond lo, past the samples of symbols 0 .. upto - 1, keeps those staged. */
    lemma KeepStaged(before: seq<Byte>, after: seq<Byte>, c0: int, syms: seq<int>, n: nat, upto: nat, lo: int, hi: int)
      requires Valid() && StagedBelow(before, c0, syms, n, upto)
      requires 2 * (upto * samplesPerSymbol) <= lo && SameOutside(before, after, lo, hi)
      ensures StagedBelow(after, c0, syms, n, upto)
    {
      forall i, pos | 0 <= i < upto && 0 <= pos < samplesPerSymbol
        ensures SampleIs(after, i * samplesPerSymbol + pos, Stage(c0, syms, n, i, pos))
      {
        var k := i * samplesPerSymbol + pos;
        SymbolBelow(i, upto, samplesPerSymbol);
        assert SampleIs(before, k, Stage(c0, syms, n, i, pos));
        assert after[2 * k] == before[2 * k] && after[2 * k + 1] == before[2 * k + 1];
      }
    }

    /** Symbol n's carrier, written from buffer sample first = n S on, is its unshaped signal. */
    lemma ToneIsRaw(c0: int, syms: seq<int>, n: nat, start: int, first: int, pos: int)
      requires n < |syms| && first == n * samplesPerSymbol && 0 <= first && start == c0 + first
      ensures Raw(c0, syms, n, pos) == Tone(start, first, first + pos, Shift(syms, n))
    {
      assert start + (first + pos - first) == c0 + (n * samplesPerSymbol + pos - 0);
    }

    /** Handling a symbol it does not shape, the loop leaves every coefficient as it was and adds none. */
    lemma GainPlain(syms: seq<int>, n: nat, i: int, pos: int)
      requires Valid() && n < |syms| && (n == 0 || syms[n] != 0) && 0 <= i <= n && 0 <= pos < samplesPerSymbol
      ensures LoopGain(syms, n + 1, i, pos) == if i < n then LoopGain(syms, n, i, pos) else None
    {
    }

    /**
     * Handling a 0 symbol n, the loop adds the fade-out coefficients over
     * positions Half() .. 2 Half() - 1 of symbol n - 1 and leaves the rest
     * of the earlier symbols as they were.
     */
    lemma GainFadeOut(syms: seq<int>, n: nat, i: int, pos: int)
      requires Valid() && 1 <= n < |syms| && syms[n] == 0 && 0 <= i < n && 0 <= pos < samplesPerSymbol
      ensures if i == n - 1 && Half() <= pos < 2 * Half()
        then LoopGain(syms, n, i, pos) == None && LoopGain(syms, n + 1, i, pos) == Some(symbolEndFilter[pos - Half()])
        else LoopGain(syms, n + 1, i, pos) == LoopGain(syms, n, i, pos)
    {
    }

    /** Handling a 0 symbol n, the loop fades in its first half and leaves its second half unscaled. */
    lemma GainFadeIn(syms: seq<int>, n: nat, pos: int)
      requires Valid() && 1 <= n < |syms| && syms[n] == 0 && 0 <= pos < samplesPerSymbol
      ensures LoopGain(syms, n + 1, n, pos) == if pos < Half() then Some(symbolStartFilter[pos]) else None
    {
    }

    /**
     * The loop after a symbol it does not shape (the first, or a 1): the
     * symbol's carrier joins the staged samples unchanged.
     */
    lemma ExtendPlain(buf: seq<Byte>, c0: int, syms: seq<int>, n: nat, start: int, first: int)
      requires Valid() && n < |syms| && (n == 0 || syms[n] != 0)
      requires first == n * samplesPerSymbol && 0 <= first && start == c0 + first
      requires StagedBelow(buf, c0, syms, n, n)
      requires forall k :: first <= k < first + samplesPerSymbol ==> SampleIs(buf, k, Tone(start, first, k, Shift(syms, n)))
      ensures StagedBelow(buf, c0, syms, n + 1, n + 1)
    {
      var m := n + 1;
      forall i, pos | 0 <= i < m && 0 <= pos < samplesPerSymbol
        ensures SampleIs(buf, i * samplesPerSymbol + pos, Stage(c0, syms, m, i, pos))
      {
        GainPlain(syms, n, i, pos);
        if i < n {
          assert SampleIs(buf, i * samplesPerSymbol + pos, Stage(c0, syms, n, i, pos));
        } else {
          assert SampleIs(buf, first + pos, Tone(start, first, first + pos, Shift(syms, n)));
          ToneIsRaw(c0, syms, n, start, first, pos);
        }
      }
    }

    /** The `fadeOut` before a 0 symbol n shapes the second half of symbol n - 1 as LoopGain says. */
    lemma FadeOutStep(before: seq<Byte>, after: seq<Byte>, c0: int, syms: seq<int>, n: nat, first: int)
      requires Valid() && 1 <= n < |syms| && syms[n] == 0
      requires first == (n - 1) * samplesPerSymbol + Half() && 0 <= first
      requires StagedBelow(before, c0, syms, n, n)
      requires 2 * (first + Half()) <= |before|
      requires forall k :: first <= k < first + Half() ==>
        SampleIs(after, k, Faded(before, first, symbolEndFilter, k))
      requires SameOutside(before, after, 2 * first, 2 * (first + Half()))
      ensures StagedBelow(after, c0, syms, n + 1, n)
    {
      var m := n + 1;
      forall i, pos | 0 <= i < n && 0 <= pos < samplesPerSymbol
        ensures SampleIs(after, i * samplesPerSymbol + pos, Stage(c0, syms, m, i, pos))
      {
        var k := i * samplesPerSymbol + pos;
        var v := Stage(c0, syms, n, i, pos);
        assert SampleIs(before, k, v);
        GainFadeOut(syms, n, i, pos);
        if i == n - 1 && Half() <= pos < 2 * Half() {
          assert k == first + (pos - Half());
          assert SampleIs(after, k, Faded(before, first, symbolEndFilter, k));
          FadedIs(before, first, symbolEndFilter, k, v);
        } else {
          if i < n - 1 {
            SymbolBelow(i, n - 1, samplesPerSymbol);
          }
          assert after[2 * k] == before[2 * k] && after[2 * k + 1] == before[2 * k + 1];
        }
      }
    }

    /** The `fadeIn` after a 0 symbol n shapes its first half as LoopGain says. */
    lemma FadeInStep(before: seq<Byte>, after: seq<Byte>, c0: int, syms: seq<int>, n: nat, start: int, first: int)
      requires Valid() && 1 <= n < |syms| && syms[n] == 0
      requires first == n * samplesPerSymbol && 0 <= first && start == c0 + first
      requires StagedBelow(before, c0, syms, n + 1, n)
      requires forall k :: first <= k < first + samplesPerSymbol ==> SampleIs(before, k, Tone(start, first, k, Shift(syms, n)))
      requires 2 * (first + Half()) <= |before|
      requires forall k :: first <= k < first + Half() ==>
        SampleIs(after, k, Faded(before, first, symbolStartFilter, k))
      requires SameOutside(before, after, 2 * first, 2 * (first + Half()))
      ensures StagedBelow(after, c0, syms, n + 1, n + 1)
    {
      KeepStaged(before, after, c0, syms, n + 1, n, 2 * first, 2 * (first + Half()));
      FadeInSymbol(before, after, c0, syms, n, n + 1, start, first);
      StagedJoin(after, c0, syms, n + 1, n, first);
    }

    /** The samples of the 0 symbol n itself after its `fadeIn`. */
    lemma FadeInSymbol(before: seq<Byte>, after: seq<Byte>, c0: int, syms: seq<int>, n: nat, m: nat, start: int, first: int)
      requires Valid() && 1 <= n < |syms| && syms[n] == 0 && m == n + 1
      requires first == n * samplesPerSymbol && 0 <= first && start == c0 + first
      requires forall k :: first <= k < first + samplesPerSymbol ==> SampleIs(before, k, Tone(start, first, k, Shift(syms, n)))
      requires 2 * (first + Half()) <= |before|
      requires forall k :: first <= k < first + Half() ==>
        SampleIs(after, k, Faded(before, first, symbolStartFilter, k))
      requires SameOutside(before, after, 2 * first, 2 * (first + Half()))
      ensures forall pos :: 0 <= pos < samplesPerSymbol ==> SampleIs(after, first + pos, Stage(c0, syms, m, n, pos))
    {
      forall pos | 0 <= pos < samplesPerSymbol
        ensures SampleIs(after, first + pos, Stage(c0, syms, m, n, pos))
      {
        var k := first + pos;
        assert SampleIs(before, k, Tone(start, first, k, Shift(syms, n)));
        if pos < Half() {
          assert SampleIs(after, k, Faded(before, first, symbolStartFilter, k));
          FadeInFaded(before, after, c0, syms, n, m, start, first, pos);
        } else {
          assert after[2 * k] == before[2 * k] && after[2 * k + 1] == before[2 * k + 1];
          FadeInPlain(after, c0, syms, n, m, start, first, pos);
        }
      }
    }

    /** A sample in the first half of a 0 symbol: its carrier scaled by the fade-in coefficient. */
    lemma FadeInFaded(before: seq<Byte>, after: seq<Byte>, c0: int, syms: seq<int>, n: nat, m: nat, start: int, first: int, pos: int)
      requires Valid() && 1 <= n < |syms| && syms[n] == 0 && m == n + 1
      requires first == n * samplesPerSymbol && 0 <= first && start == c0 + first && 0 <= pos < Half()
      requires SampleIs(before, first + pos, Tone(start, first, first + pos, Shift(syms, n)))
      requires SampleIs(after, first + pos, Faded(before, first, symbolStartFilter, first + pos))
      ensures SampleIs(after, first + pos, Stage(c0, syms, m, n, pos))
    {
      var v := Tone(start, first, first + pos, Shift(syms, n));
      ToneIsRaw(c0, syms, n, start, first, pos);
      GainFadeIn(syms, n, pos);
      assert Faded(before, first, symbolStartFilter, first + pos) == Scale(v, symbolStartFilter[pos]);
      assert Stage(c0, syms, m, n, pos) == Scale(v, symbolStartFilter[pos]);
    }

    /** A sample in the second half of a 0 symbol: its carrier as generated. */
    lemma FadeInPlain(buf: seq<Byte>, c0: int, syms: seq<int>, n: nat, m: nat, start: int, first: int, pos: int)
      requires Valid() && 1 <= n < |syms| && syms[n] == 0 && m == n + 1
      requires first == n * samplesPerSymbol && 0 <= first && start == c0 + first && Half() <= pos < samplesPerSymbol
      requires SampleIs(buf, first + pos, Tone(start, first, first + pos, Shift(syms, n)))
      ensures SampleIs(buf, first + pos, Stage(c0, syms, m, n, pos))
    {
      ToneIsRaw(c0, syms, n, start, first, pos);
      GainFadeIn(syms, n, pos);
      assert Stage(c0, syms, m, n, pos) == Tone(start, first, first + pos, Shift(syms, n));
    }

    /** Staged samples of symbols before upto, and of symbol upto itself, make staged samples before upto + 1. */
    lemma StagedJoin(buf: seq<Byte>, c0: int, syms: seq<int>, n: nat, upto: nat, first: int)
      requires Valid() && StagedBelow(buf, c0, syms, n, upto) && upto < |syms| && first == upto * samplesPerSymbol
      requires forall pos :: 0 <= pos < samplesPerSymbol ==> SampleIs(buf, first + pos, Stage(c0, syms, n, upto, pos))
      ensures StagedBelow(buf, c0, syms, n, upto + 1)
    {
      forall i, pos | 0 <= i < upto + 1 && 0 <= pos < samplesPerSymbol
        ensures SampleIs(buf, i * samplesPerSymbol + pos, Stage(c0, syms, n, i, pos))
      {
        if i == upto {
          assert SampleIs(buf, first + pos, Stage(c0, syms, n, upto, pos));
        }
      }
    }

    /** The final `fadeIn` at 0 and `fadeOut` at the last half symbol turn the staged signal into Out. */
    lemma FinishStep(before: seq<Byte>, mid: seq<Byte>, after: seq<Byte>, c0: int, syms: seq<int>, total: int, tail: int)
      requires Valid() && |syms| >= 1 && total == |syms| * samplesPerSymbol
      requires tail == total - Half()
      requires StagedBelow(before, c0, syms, |syms|, |syms|) && 2 * total <= |before|
      requires SameOutside(before, mid, 0, 2 * Half())
      requires forall k :: 0 <= k < Half() ==> SampleIs(mid, k, Faded(before, 0, symbolStartFilter, k))
      requires SameOutside(mid, after, 2 * tail, 2 * total)
      requires forall k :: tail <= k < total ==> SampleIs(after, k, Faded(mid, tail, symbolEndFilter, k))
      ensures forall i, pos :: 0 <= i < |syms| && 0 <= pos < samplesPerSymbol ==>
        SampleIs(after, i * samplesPerSymbol + pos, Out(c0, syms, i, pos))
    {
      var last := |syms| - 1;
      MulStep(last, samplesPerSymbol);
      MulMono(0, last, samplesPerSymbol);
      forall i, pos | 0 <= i < |syms| && 0 <= pos < samplesPerSymbol
        ensures SampleIs(after, i * samplesPerSymbol + pos, Out(c0, syms, i, pos))
      {
        assert SampleIs(before, i * samplesPerSymbol + pos, Stage(c0, syms, |syms|, i, pos));
        if i == 0 && pos < Half() {
          OutHead(before, mid, after, c0, syms, pos, tail);
        } else if i == last && samplesPerSymbol - Half() <= pos {
          OutTail(before, mid, after, c0, syms, pos, last * samplesPerSymbol, tail);
        } else {
          OutBetween(before, mid, after, c0, syms, i, pos, total, tail);
        }
      }
    }

    /** Between the first and the last half symbol, the finished signal is what the loop left. */
    lemma OutBetween(before: seq<Byte>, mid: seq<Byte>, after: seq<Byte>, c0: int, syms: seq<int>, i: int, pos: int, total: int, tail: int)
      requires Valid() && 0 <= i < |syms| && 0 <= pos < samplesPerSymbol
      requires !(i == 0 && pos < Half()) && !(i == |syms| - 1 && samplesPerSymbol - Half() <= pos)
      requires total == |syms| * samplesPerSymbol && tail == total - Half()
      requires SampleIs(before, i * samplesPerSymbol + pos, Stage(c0, syms, |syms|, i, pos))
      requires SameOutside(before, mid, 0, 2 * Half()) && SameOutside(mid, after, 2 * tail, 2 * total)
      ensures SampleIs(after, i * samplesPerSymbol + pos, Out(c0, syms, i, pos))
    {
      var k, last := i * samplesPerSymbol + pos, |syms| - 1;
      MulStep(last, samplesPerSymbol);
      if 1 <= i {
        MulMono(1, i, samplesPerSymbol);
      }
      if i < last {
        SymbolBelow(i, last, samplesPerSymbol);
      }
      assert mid[2 * k] == before[2 * k] && mid[2 * k + 1] == before[2 * k + 1];
      assert after[2 * k] == mid[2 * k] && after[2 * k + 1] == mid[2 * k + 1];
      assert Out(c0, syms, i, pos) == Stage(c0, syms, |syms|, i, pos);
    }

    /** Over the first half symbol, the finished signal is the loop's output faded in. */
    lemma OutHead(before: seq<Byte>, mid: seq<Byte>, after: seq<Byte>, c0: int, syms: seq<int>, pos: int, tail: int)
      requires Valid() && |syms| >= 1 && 0 <= pos < Half() && Half() <= tail
      requires SampleIs(before, pos, Stage(c0, syms, |syms|, 0, pos))
      requires SampleIs(mid, pos, Faded(before, 0, symbolStartFilter, pos))
      requires SameOutside(mid, after, 2 * tail, 2 * tail + 2 * Half())
      ensures SampleIs(after, pos, Out(c0, syms, 0, pos))
    {
      assert LoopGain(syms, |syms|, 0, pos) == None;
      assert after[2 * pos] == mid[2 * pos] && after[2 * pos + 1] == mid[2 * pos + 1];
    }

    /** Over the last half symbol, the finished signal is the loop's output faded out. */
    lemma OutTail(before: seq<Byte>, mid: seq<Byte>, after: seq<Byte>, c0: int, syms: seq<int>, pos: int, first: int, tail: int)
      requires Valid() && |syms| >= 1 && first == (|syms| - 1) * samplesPerSymbol && 0 <= first
      requires samplesPerSymbol - Half() <= pos < samplesPerSymbol && tail == first + samplesPerSymbol - Half()
      requires SampleIs(before, first + pos, Stage(c0, syms, |syms|, |syms| - 1, pos))
      requires SameOutside(before, mid, 0, 2 * Half())
      requires SampleIs(after, first + pos, Faded(mid, tail, symbolEndFilter, first + pos))
      ensures SampleIs(after, first + pos, Out(c0, syms, |syms| - 1, pos))
    {
      var k, last := first + pos, |syms| - 1;
      MulMono(0, last, samplesPerSymbol);
      assert mid[2 * k] == before[2 * k] && mid[2 * k + 1] == before[2 * k + 1];
      assert LoopGain(syms, |syms|, last, pos) == None;
      assert Gain(syms, last, pos) == Some(symbolEndFilter[k - tail]);
    }

    /** The loop's step for a symbol it does not shape (the first, or a 1): its carrier at the current shift. */
    method PlainSymbol(buffer: array<Byte>, sample: nat, shift: real, ghost c0: int, ghost syms: seq<int>, ghost n: nat)
      returns (next: nat)
      requires Valid() && n < |syms| && (n == 0 || syms[n] == 1)
      requires sample == n * samplesPerSymbol && buffer.Length == 2 * (|syms| * samplesPerSymbol)
      requires currentSample == c0 + sample && shift == Shift(syms, n)
      requires StagedBelow(buffer[..], c0, syms, n, n)
      modifies this`currentSample, buffer
      ensures next == sample + samplesPerSymbol && currentSample == c0 + next
      ensures StagedBelow(buffer[..], c0, syms, n + 1, n + 1)
    {
      MulStep(n, samplesPerSymbol);
      MulMono(n + 1, |syms|, samplesPerSymbol);
      ghost var before := buffer[..];
      next := GenerateSymbol(buffer, sample, shift);
      KeepStaged(before, buffer[..], c0, syms, n, n, 2 * sample, 2 * next);
      ExtendPlain(buffer[..], c0, syms, n, c0 + sample, sample);
    }

    /**
     * The loop's step for a 0 symbol, at the already reversed shift: fade
     * out the half symbol before it, generate it, and fade in its first half.
     */
    method ZeroSymbol(buffer: array<Byte>, sample: nat, shift: real, ghost c0: int, ghost syms: seq<int>, ghost n: nat)
      returns (next: nat)
      requires Valid() && 1 <= n < |syms| && syms[n] == 0
      requires sample == n * samplesPerSymbol && buffer.Length == 2 * (|syms| * samplesPerSymbol)
      requires currentSample == c0 + sample && shift == Shift(syms, n)
      requires StagedBelow(buffer[..], c0, syms, n, n)
      modifies this`currentSample, buffer
      ensures next == sample + samplesPerSymbol && currentSample == c0 + next
      ensures StagedBelow(buffer[..], c0, syms, n + 1, n + 1)
    {
      MulStep(n - 1, samplesPerSymbol);
      MulMono(0, n - 1, samplesPerSymbol);
      var at := TruncReal(sample as real - samplesPerSymbol as real / 2.0);
      HalfBack(sample, samplesPerSymbol);
      ghost var b0 := buffer[..];
      FadeOut(buffer, at);
      FadeOutStep(b0, buffer[..], c0, syms, n, at);
      ZeroSymbolCarrier(buffer, sample, shift, c0, syms, n);
      next := sample + samplesPerSymbol;
    }

    /** The second part of ZeroSymbol: the symbol's carrier, then the fade-in over its first half. */
    method ZeroSymbolCarrier(buffer: array<Byte>, sample: nat, shift: real, ghost c0: int, ghost syms: seq<int>, ghost n: nat)
      requires Valid() && 1 <= n < |syms| && syms[n] == 0
      requires sample == n * samplesPerSymbol && buffer.Length == 2 * (|syms| * samplesPerSymbol)
      requires currentSample == c0 + sample && shift == Shift(syms, n)
      requires StagedBelow(buffer[..], c0, syms, n + 1, n)
      modifies this`currentSample, buffer
      ensures currentSample == c0 + sample + samplesPerSymbol
      ensures StagedBelow(buffer[..], c0, syms, n + 1, n + 1)
    {
      MulStep(n, samplesPerSymbol);
      MulMono(n + 1, |syms|, samplesPerSymbol);
      ghost var b1 := buffer[..];
      var next := GenerateSymbol(buffer, sample, shift);
      KeepStaged(b1, buffer[..], c0, syms, n + 1, n, 2 * sample, 2 * next);
      ghost var b2 := buffer[..];
      var at := TruncReal(next as real - samplesPerSymbol as real);
      assert at == sample;
      FadeIn(buffer, at);
      FadeInStep(b2, buffer[..], c0, syms, n, c0 + sample, sample);
    }

    /**
     * `generateSignal(symbols, off, len)`: the PSK audio for symbols[off ..
     * off + len), as 16-bit big-endian samples, or an `IOException` for a
     * symbol after the first that is neither 0 nor 1.
     */
    method GenerateSignal(symbols: seq<int>, off: nat, len: nat) returns (r: Result<array<Byte>>)
      requires Valid() && off + len <= |symbols|
      modifies this`currentSample
      ensures len == 0 ==> r.Success? && r.value.Length == 0 && currentSample == old(currentSample)
      ensures len > 0 && FirstInvalid(Window(symbols, off, len), 1).Some? ==>
        && r == Failure(IOException)
        && currentSample == old(currentSample) + FirstInvalid(Window(symbols, off, len), 1).value * samplesPerSymbol
      ensures len > 0 && FirstInvalid(Window(symbols, off, len), 1).None? ==>
        && r.Success? && fresh(r.value)
        && r.value.Length == 2 * (len * samplesPerSymbol)
        && currentSample == old(currentSample) + len * samplesPerSymbol
        && forall i, pos :: 0 <= i < len && 0 <= pos < samplesPerSymbol ==>
             SampleIs(r.value[..], i * samplesPerSymbol + pos, Out(old(currentSample), Window(symbols, off, len), i, pos))
    {
      if len == 0 {
        var empty := new Byte[0];
        return Success(empty);
      }
      var samples := len * samplesPerSymbol;
      var buffer := new Byte[2 * samples](_ => 0);
      ghost var syms := Window(symbols, off, len);
      ghost var c0 := currentSample;
      var shift := 0.0;
      var sample := 0;
      sample := PlainSymbol(buffer, sample, shift, c0, syms, 0);
      var symI := 1;
      while symI < len
        invariant 1 <= symI <= len
        invariant sample == symI * samplesPerSymbol
        invariant currentSample == c0 + sample
        invariant shift == Shift(syms, symI - 1)
        invariant forall j :: 1 <= j < symI ==> syms[j] == 0 || syms[j] == 1
        invariant StagedBelow(buffer[..], c0, syms, symI, symI)
      {
        var symbol := symbols[off + symI];
        assert symbol == syms[symI];
        if symbol == 0 {
          shift := Flip(shift);
          sample := ZeroSymbol(buffer, sample, shift, c0, syms, symI);
        } else if symbol == 1 {
          sample := PlainSymbol(buffer, sample, shift, c0, syms, symI);
        } else {
          FirstInvalidAt(syms, 1, symI);
          return Failure(IOException);
        }
        MulStep(symI, samplesPerSymbol);
        symI := symI + 1;
      }
      assert FirstInvalid(syms, 1).None?;
      Finish(buffer, samples, c0, syms);
      return Success(buffer);
    }

    /** The end of `generateSignal`: fade in the first half symbol and fade out the last. */
    method Finish(buffer: array<Byte>, samples: nat, ghost c0: int, ghost syms: seq<int>)
      requires Valid() && |syms| >= 1 && samples == |syms| * samplesPerSymbol && buffer.Length == 2 * samples
      requires StagedBelow(buffer[..], c0, syms, |syms|, |syms|)
      modifies buffer
      ensures forall i, pos :: 0 <= i < |syms| && 0 <= pos < samplesPerSymbol ==>
        SampleIs(buffer[..], i * samplesPerSymbol + pos, Out(c0, syms, i, pos))
    {
      MulMono(1, |syms|, samplesPerSymbol);
      ghost var b0 := buffer[..];
      FadeIn(buffer, 0);
      ghost var b1 := buffer[..];
      FadeOut(buffer, samples - |symbolEndFilter|);
      FinishStep(b0, b1, buffer[..], c0, syms, samples, samples - |symbolEndFilter|);
    }

    /** `generateSignal(symbols)`: the whole array. */
    method GenerateAll(symbols: seq<int>) returns (r: Result<array<Byte>>)
      requires Valid()
      modifies this`currentSample
      ensures |symbols| == 0 ==> r.Success? && r.value.Length == 0 && currentSample == old(currentSample)
      ensures |symbols| > 0 && FirstInvalid(symbols, 1).Some? ==>
        && r == Failure(IOException)
        && currentSample == old(currentSample) + FirstInvalid(symbols, 1).value * samplesPerSymbol
      ensures |symbols| > 0 && FirstInvalid(symbols, 1).None? ==>
        && r.Success? && fresh(r.value)
        && r.value.Length == 2 * (|symbols| * samplesPerSymbol)
        && currentSample == old(currentSample) + |symbols| * samplesPerSymbol
        && forall i, pos :: 0 <= i < |symbols| && 0 <= pos < samplesPerSymbol ==>
             SampleIs(r.value[..], i * samplesPerSymbol + pos, Out(old(currentSample), symbols, i, pos))
    {
      assert symbols[0..|symbols|] == symbols;
      r := GenerateSignal(symbols, 0, |symbols|);
    }
  }

  /** `symbols[off .. off + len)`: the symbols one call modulates. */
  function Window(symbols: seq<int>, off: nat, len: nat): seq<int>
    requires off + len <= |symbols|
  {
    symbols[off..off + len]
  }

  /** Sample v, scaled by the coefficient g when there is one. */
  function Shaped(v: Short, g: Option<real>): Short
  {
    if g.Some? then Scale(v, g.value) else v
  }

  /** The first invalid symbol from `from` on is the first one the loop meets. */
  lemma FirstInvalidAt(syms: seq<int>, from: nat, j: nat)
    requires from <= j < |syms| && syms[j] != 0 && syms[j] != 1
    requires forall x :: from <= x < j ==> syms[x] == 0 || syms[x] == 1
    ensures FirstInvalid(syms, from) == Some(j)
  {
  }

  /** For a sample at or beyond symbol 1, `(int)(sample - samplesPerSymbol / 2.0)` steps back the larger half of a symbol. */
  lemma HalfBack(sample: int, perSymbol: nat)
    requires sample >= perSymbol
    ensures TruncReal(sample as real - perSymbol as real / 2.0) == sample - (perSymbol - perSymbol / 2)
  {
    var q := perSymbol / 2;
    assert perSymbol as real / 2.0 == q as real + (perSymbol - 2 * q) as real / 2.0;
  }

  /** Symbol i of n symbols of s samples each starts at i s and ends by n s. */
  lemma SymbolBelow(i: int, n: int, s: int)
    requires 0 <= i < n && s >= 0
    ensures 0 <= i * s && i * s + s <= n * s
  {
    MulMono(0, i, s);
    MulMono(i + 1, n, s);
    MulStep(i, s);
  }

  lemma MulStep(a: int, s: int)
    ensures (a + 1) * s == a * s + s
  {
  }

  lemma MulMono(a: int, b: int, s: int)
    requires s >= 0 && a <= b
    ensures a * s <= b * s
  {
    assert b * s == a * s + (b - a) * s;
  }

  /** For a whole number p, `(int)(p / 2.0)` is p / 2. */
  lemma HalfOfWhole(p: int)
    requires p >= 0
    ensures TruncReal(p as real / 2.0) == p / 2
  {
    var q := p / 2;
    assert p as real / 2.0 == q as real + (p - 2 * q) as real / 2.0;
  }
}
