/**
 * `BpskDetector`: the demodulator. Incoming 16-bit big-endian audio goes
 * into a ring buffer two symbols long; every half buffer the two halves are
 * added sample by sample, and when enough of the sums are small (the two
 * symbols cancel out) a phase inversion, that is a 0, is reported. A 1 is
 * reported when a whole symbol has gone by without one.
 *
 * The machine is specified by `Step` and `Run` on `Detector` values; the
 * class's methods are proved to follow them.
 */
module BpskDetectors {
  import opened JavaTypes

  /** The detector's state that persists from sample to sample. */
  datatype Detector = Detector(buffer: seq<Short>, bufferIdx: int, sampleCount: int, checkShift: int)

  /** The ring buffer holds two symbols, its cursor is inside it, and the counters are not negative. */
  predicate Ok(perSymbol: nat, d: Detector)
  {
    && perSymbol >= 1
    && |d.buffer| == 2 * perSymbol
    && 0 <= d.bufferIdx < 2 * perSymbol
    && d.sampleCount >= 0
    && d.checkShift >= 0
  }

  /** `j % size` for an index j in [0, 2 size): the ring buffer's wrap-around. */
  function Wrap(j: int, size: int): int
  {
    if j < size then j else j - size
  }

  /** Java's `%` and Wrap agree on the indices the check reads. */
  lemma ModIsWrap(j: int, size: int)
    requires 0 <= j < 2 * size
    ensures j % size == Wrap(j, size)
  {
    if j >= size {
      assert j == 1 * size + (j - size);
    }
  }

  /** `buffer[(bufferIdx + k) % buffer.length]`: sample k of the older half, counted from the cursor. */
  function Older(buf: seq<Short>, idx: int, k: int): Short
    requires 0 <= idx < |buf| && 0 <= k < |buf| / 2
  {
    buf[Wrap(idx + k, |buf|)]
  }

  /** `buffer[(bufferIdx + k + buffer.length / 2) % buffer.length]`: sample k of the newer half. */
  function Newer(buf: seq<Short>, idx: int, k: int): Short
    requires 0 <= idx < |buf| && 0 <= k < |buf| / 2
  {
    buf[Wrap(idx + k + |buf| / 2, |buf|)]
  }

  /** `checkBuffer[k]`: the two halves added, wrapped to 16 bits. */
  function CheckValue(buf: seq<Short>, idx: int, k: int): Short
    requires 0 <= idx < |buf| && 0 <= k < |buf| / 2
  {
    ToShort(Older(buf, idx, k) + Newer(buf, idx, k))
  }

  /** The first n entries of `checkBuffer` after a check. */
  function CheckValues(buf: seq<Short>, idx: int, n: nat): (cb: seq<Short>)
    requires 0 <= idx < |buf| && n <= |buf| / 2
    ensures |cb| == n && forall k :: 0 <= k < n ==> cb[k] == CheckValue(buf, idx, k)
  {
    if n == 0 then [] else CheckValues(buf, idx, n - 1) + [CheckValue(buf, idx, n - 1)]
  }

  /**
   * `avgAmplitude` times `buffer.length` after n rounds of the first loop:
   * the sum of `|v1| + |v2|`. Comparing `|c| < avgAmplitude` is comparing
   * `|c| * buffer.length` with this sum.
   */
  function AmpSum(buf: seq<Short>, idx: int, n: nat): (s: int)
    requires 0 <= idx < |buf| && n <= |buf| / 2
    ensures s >= 0
  {
    if n == 0 then 0 else AmpSum(buf, idx, n - 1) + Abs(Older(buf, idx, n - 1)) + Abs(Newer(buf, idx, n - 1))
  }

  /** How many of cb[lo .. hi) are below the average amplitude sum / size: the zeros the check counts. */
  function Zeros(cb: seq<Short>, lo: int, hi: int, sum: int, size: int): (z: nat)
    requires 0 <= lo && hi <= |cb|
    ensures lo <= hi ==> z <= hi - lo
    ensures hi <= lo ==> z == 0
    decreases hi - lo
  {
    if hi <= lo then 0
    else Zeros(cb, lo, hi - 1, sum, size) + (if Abs(cb[hi - 1]) * size < sum then 1 else 0)
  }

  /** The start of each sample's handling: count it, store it at the cursor, advance the cursor. */
  function Written(perSymbol: nat, d: Detector, x: Short): (w: Detector)
    requires Ok(perSymbol, d)
    ensures Ok(perSymbol, w)
  {
    var idx := d.bufferIdx + 1;
    Detector(d.buffer[d.bufferIdx := x], if idx >= 2 * perSymbol then 0 else idx, d.sampleCount + 1, d.checkShift)
  }

  /** `(2 * (bufferIdx + checkShift)) % buffer.length == 0`: a half buffer has gone by since the last check. */
  predicate AtCheck(perSymbol: nat, d: Detector)
    requires perSymbol >= 1
  {
    (2 * (d.bufferIdx + d.checkShift)) % (2 * perSymbol) == 0
  }

  /**
   * The inversion check: a 0 when more than half of the check values are
   * small, re-centring the next check when the zeros lean left; otherwise a
   * 1 once a whole symbol's samples have been counted; otherwise nothing.
   */
  function Checked(perSymbol: nat, d: Detector): (r: (Detector, seq<int>))
    requires Ok(perSymbol, d)
  {
    var sum := AmpSum(d.buffer, d.bufferIdx, perSymbol);
    var cb := CheckValues(d.buffer, d.bufferIdx, perSymbol);
    Decide(perSymbol, d, Zeros(cb, 0, perSymbol / 2, sum, 2 * perSymbol), Zeros(cb, perSymbol / 2, perSymbol, sum, 2 * perSymbol))
  }

  /** What the check does once it has counted `left` zeros in the first half of the check values and `right` in the second. */
  function Decide(perSymbol: nat, d: Detector, left: nat, right: nat): (r: (Detector, seq<int>))
    requires perSymbol >= 1
  {
    if left + right > perSymbol / 2 then
      if left > right && left >= right * 2 then
        (d.(sampleCount := perSymbol - (left + right), checkShift := d.checkShift + (perSymbol - (left + right))), [0])
      else
        (d.(sampleCount := left + right), [0])
    else if d.sampleCount >= perSymbol then
      (d.(sampleCount := d.sampleCount % perSymbol), [1])
    else
      (d, [])
  }

  /** One iteration of `detectSignal`'s loop over samples: the new state and the symbols written. */
  function Step(perSymbol: nat, d: Detector, x: Short): (r: (Detector, seq<int>))
    requires Ok(perSymbol, d)
  {
    var w := Written(perSymbol, d, x);
    if AtCheck(perSymbol, w) then Checked(perSymbol, w) else (w, [])
  }

  /** The zeros counted in the two halves never exceed the number of check values. */
  lemma ZerosSplit(cb: seq<Short>, half: int, n: int, sum: int, size: int)
    requires 0 <= half <= n <= |cb|
    ensures Zeros(cb, 0, half, sum, size) + Zeros(cb, half, n, sum, size) <= n
  {
  }

  /**
   * Each sample keeps the state well formed, writes at most one symbol,
   * always a 0 or a 1 and only at a check, and never moves `checkShift`
   * back.
   */
  lemma StepProperties(perSymbol: nat, d: Detector, x: Short)
    requires Ok(perSymbol, d)
    ensures Ok(perSymbol, Step(perSymbol, d, x).0)
    ensures |Step(perSymbol, d, x).1| <= 1
    ensures forall s :: s in Step(perSymbol, d, x).1 ==> s == 0 || s == 1
    ensures |Step(perSymbol, d, x).1| == 1 ==> AtCheck(perSymbol, Written(perSymbol, d, x))
    ensures Step(perSymbol, d, x).0.checkShift >= d.checkShift
  {
    var w := Written(perSymbol, d, x);
    if AtCheck(perSymbol, w) {
      var sum := AmpSum(w.buffer, w.bufferIdx, perSymbol);
      var cb := CheckValues(w.buffer, w.bufferIdx, perSymbol);
      var left, right := Zeros(cb, 0, perSymbol / 2, sum, 2 * perSymbol), Zeros(cb, perSymbol / 2, perSymbol, sum, 2 * perSymbol);
      ZerosSplit(cb, perSymbol / 2, perSymbol, sum, 2 * perSymbol);
      DecideProperties(perSymbol, w, left, right);
      assert Step(perSymbol, d, x) == Decide(perSymbol, w, left, right);
    }
  }

  /**
   * A check with at most one zero per check value keeps the state well
   * formed and reports at most one 0 or 1: a 0 exactly when more than half
   * of the values are zeros, else a 1 exactly when a whole symbol's samples
   * have been counted. A 0 leaves at most a symbol's worth of count.
   */
  lemma DecideProperties(perSymbol: nat, d: Detector, left: nat, right: nat)
    requires Ok(perSymbol, d) && left + right <= perSymbol
    ensures Ok(perSymbol, Decide(perSymbol, d, left, right).0)
    ensures |Decide(perSymbol, d, left, right).1| <= 1
    ensures forall s :: s in Decide(perSymbol, d, left, right).1 ==> s == 0 || s == 1
    ensures Decide(perSymbol, d, left, right).0.checkShift >= d.checkShift
    ensures Decide(perSymbol, d, left, right).0.bufferIdx == d.bufferIdx
    ensures Decide(perSymbol, d, left, right).0.buffer == d.buffer
    ensures (Decide(perSymbol, d, left, right).1 == [0]) <==> left + right > perSymbol / 2
    ensures (Decide(perSymbol, d, left, right).1 == [1]) <==> left + right <= perSymbol / 2 && d.sampleCount >= perSymbol
    ensures Decide(perSymbol, d, left, right).1 == [0] ==> Decide(perSymbol, d, left, right).0.sampleCount <= perSymbol
    ensures Decide(perSymbol, d, left, right).1 == [1] ==> Decide(perSymbol, d, left, right).0.sampleCount < perSymbol
  {
  }

  /** The detector's Step on any state: a state that is not well formed is left alone. */
  function StepAny(perSymbol: nat, d: Detector, x: Short): (Detector, seq<int>)
  {
    if Ok(perSymbol, d) then Step(perSymbol, d, x) else (d, [])
  }

  /** Folding a step function over xs from state s: the last state and everything written, in order. */
  function Fold<S, X, O>(step: (S, X) -> (S, seq<O>), s: S, xs: seq<X>): (S, seq<O>)
    decreases |xs|
  {
    if |xs| == 0 then (s, [])
    else
      var first := step(s, xs[0]);
      var rest := Fold(step, first.0, xs[1..]);
      (rest.0, first.1 + rest.1)
  }

  /** Folding over a + b is folding over a, then over b from where a left off. */
  lemma {:induction false} FoldSplit<S, X, O>(step: (S, X) -> (S, seq<O>), s: S, a: seq<X>, b: seq<X>)
    ensures Fold(step, s, a + b).0 == Fold(step, Fold(step, s, a).0, b).0
    ensures Fold(step, s, a + b).1 == Fold(step, s, a).1 + Fold(step, Fold(step, s, a).0, b).1
    decreases |a|
  {
    if |a| > 0 {
      assert (a + b)[0] == a[0];
      assert (a + b)[1..] == a[1..] + b;
      FoldSplit(step, step(s, a[0]).0, a[1..], b);
    } else {
      assert a + b == b;
    }
  }

  /** The samples a whole input yields: state and symbols after folding Step over xs. */
  function Run(perSymbol: nat, d: Detector, xs: seq<Short>): (r: (Detector, seq<int>))
  {
    Fold((e, x) => StepAny(perSymbol, e, x), d, xs)
  }

  /** Running keeps the state well formed, writes at most one symbol per sample, only 0s and 1s, and never moves `checkShift` back. */
  lemma {:induction false} RunProperties(perSymbol: nat, d: Detector, xs: seq<Short>)
    requires Ok(perSymbol, d)
    ensures Ok(perSymbol, Run(perSymbol, d, xs).0) && |Run(perSymbol, d, xs).1| <= |xs|
    ensures forall s :: s in Run(perSymbol, d, xs).1 ==> s == 0 || s == 1
    ensures Run(perSymbol, d, xs).0.checkShift >= d.checkShift
    decreases |xs|
  {
    if |xs| > 0 {
      StepProperties(perSymbol, d, xs[0]);
      RunProperties(perSymbol, Step(perSymbol, d, xs[0]).0, xs[1..]);
    }
  }

  /** Running over a + b is running over a, then over b from where a left off. */
  lemma RunSplit(perSymbol: nat, d: Detector, a: seq<Short>, b: seq<Short>)
    ensures Run(perSymbol, d, a + b).0 == Run(perSymbol, Run(perSymbol, d, a).0, b).0
    ensures Run(perSymbol, d, a + b).1 == Run(perSymbol, d, a).1 + Run(perSymbol, Run(perSymbol, d, a).0, b).1
  {
    FoldSplit((e, x) => StepAny(perSymbol, e, x), d, a, b);
  }

  /** Running over xs + [x] is one more Step after running over xs. */
  lemma RunSnoc(perSymbol: nat, d: Detector, xs: seq<Short>, x: Short)
    requires Ok(perSymbol, d)
    ensures Ok(perSymbol, Run(perSymbol, d, xs).0)
    ensures Run(perSymbol, d, xs + [x]).0 == Step(perSymbol, Run(perSymbol, d, xs).0, x).0
    ensures Run(perSymbol, d, xs + [x]).1 == Run(perSymbol, d, xs).1 + Step(perSymbol, Run(perSymbol, d, xs).0, x).1
  {
    RunSplit(perSymbol, d, xs, [x]);
    RunProperties(perSymbol, d, xs);
    var mid := Run(perSymbol, d, xs).0;
    assert [x][1..] == [];
    assert Fold((e, y) => StepAny(perSymbol, e, y), mid, []) == (mid, []);
    assert Run(perSymbol, mid, [x]) == Fold((e, y) => StepAny(perSymbol, e, y), mid, [x]);
    assert StepAny(perSymbol, mid, x) == Step(perSymbol, mid, x);
    assert Run(perSymbol, mid, [x]) == (Step(perSymbol, mid, x).0, Step(perSymbol, mid, x).1 + []);
  }

  /** `convertToSamples(data, off, len)` as values: n signed big-endian samples from data[off ..]. */
  function Samples(data: seq<Byte>, off: nat, n: nat): (xs: seq<Short>)
    requires off + 2 * n <= |data|
    ensures |xs| == n && forall i :: 0 <= i < n ==> xs[i] == Unpack(data[off + 2 * i], data[off + 2 * i + 1])
  {
    seq(n, i requires 0 <= i < n => Unpack(data[off + 2 * i], data[off + 2 * i + 1]))
  }

  /** Samples as a modulator writes them: each one high byte first. */
  function Packed(xs: seq<Short>): (data: seq<Byte>)
    ensures |data| == 2 * |xs|
    ensures forall i :: 0 <= i < |xs| ==> data[2 * i] == HighByte(xs[i]) && data[2 * i + 1] == LowByte(xs[i])
  {
    if |xs| == 0 then [] else [HighByte(xs[0]), LowByte(xs[0])] + Packed(xs[1..])
  }

  /** Reading samples back from packed audio gives the samples that were packed. */
  lemma SamplesOfPacked(xs: seq<Short>)
    ensures Samples(Packed(xs), 0, |xs|) == xs
  {
    var data := Packed(xs);
    forall i | 0 <= i < |xs|
      ensures Samples(data, 0, |xs|)[i] == xs[i]
    {
      UnpackPack(xs[i]);
    }
  }

  /** The samples of an even-length prefix of the bytes, then of the rest, are the samples of the whole. */
  lemma SamplesSplit(data: seq<Byte>, off: nat, len1: nat, len2: nat)
    requires len1 % 2 == 0 && off + len1 + len2 <= |data|
    ensures Samples(data, off, (len1 + len2) / 2) == Samples(data, off, len1 / 2) + Samples(data, off + len1, len2 / 2)
  {
    var a, b := Samples(data, off, len1 / 2), Samples(data, off + len1, len2 / 2);
    var whole := Samples(data, off, (len1 + len2) / 2);
    assert (len1 + len2) / 2 == len1 / 2 + len2 / 2;
    forall i | 0 <= i < |whole|
      ensures whole[i] == (a + b)[i]
    {
      if i >= len1 / 2 {
        var j := i - len1 / 2;
        assert off + 2 * i == off + len1 + 2 * j;
      }
    }
  }

  /** `detectSignal(data, off, len, os)` on a detector in state d: the state it leaves and the symbols it writes. */
  function Detect(perSymbol: nat, d: Detector, data: seq<Byte>, off: nat, len: nat): (r: (Detector, seq<int>))
    requires off + len <= |data|
  {
    Run(perSymbol, d, Samples(data, off, len / 2))
  }

  /**
   * The detector keeps its state between calls: handing it the audio in
   * two pieces split at an even byte offset writes the same symbols and
   * leaves the same state as handing it all at once.
   */
  lemma DetectSplit(perSymbol: nat, d: Detector, data: seq<Byte>, off: nat, len1: nat, len2: nat)
    requires len1 % 2 == 0 && off + len1 + len2 <= |data|
    ensures Detect(perSymbol, d, data, off, len1 + len2).0
      == Detect(perSymbol, Detect(perSymbol, d, data, off, len1).0, data, off + len1, len2).0
    ensures Detect(perSymbol, d, data, off, len1 + len2).1
      == Detect(perSymbol, d, data, off, len1).1 + Detect(perSymbol, Detect(perSymbol, d, data, off, len1).0, data, off + len1, len2).1
  {
    SamplesSplit(data, off, len1, len2);
    RunSplit(perSymbol, d, Samples(data, off, len1 / 2), Samples(data, off + len1, len2 / 2));
  }

  class BpskDetector {
    /** `(int)(sampleRate / symbolsPerSecond)`. */
    const samplesPerSymbol: nat

    /** The ring buffer: two symbols of samples. */
    const buffer: array<Short>

    /** The sums of the two halves, rewritten at every check. */
    const checkBuffer: array<Short>

    /** The next index of buffer to write, and the oldest sample in it. */
    var bufferIdx: int

    /** Samples since the last reported symbol, or the re-centred count after a 0. */
    var sampleCount: int

    /** How far the checks have been brought forward. */
    var checkShift: int

    ghost function State(): Detector
      reads this, buffer
    {
      Detector(buffer[..], bufferIdx, sampleCount, checkShift)
    }

    ghost predicate Valid()
      reads this, buffer
    {
      && buffer != checkBuffer
      && checkBuffer.Length == samplesPerSymbol
      && Ok(samplesPerSymbol, State())
    }

    /** `BpskDetector(hz, sampleRate, symbolsPerSecond)`: an empty two-symbol ring buffer. */
    constructor (sampleRate: int, symbolsPerSecond: real)
      requires symbolsPerSecond > 0.0 && DoubleToInt(sampleRate as real / symbolsPerSecond) >= 1
      ensures Valid() && fresh(buffer) && fresh(checkBuffer)
      ensures samplesPerSymbol == DoubleToInt(sampleRate as real / symbolsPerSecond)
      ensures buffer.Length == 2 * samplesPerSymbol && checkBuffer.Length == samplesPerSymbol
      ensures State() == Detector(seq(2 * samplesPerSymbol, _ => 0), 0, 0, 0)
    {
      var perSymbol := DoubleToInt(sampleRate as real / symbolsPerSecond);
      samplesPerSymbol := perSymbol;
      checkShift := 0;
      buffer := new Short[perSymbol * 2](_ => 0);
      bufferIdx := 0;
      checkBuffer := new Short[perSymbol](_ => 0);
      sampleCount := 0;
    }

    /** `convertToSamples(buffer, off, len)`: len / 2 samples, each from two bytes, high byte first. */
    static method ConvertToSamples(data: array<Byte>, off: nat, len: nat) returns (samples: array<Short>)
      requires off + 2 * (len / 2) <= data.Length
      ensures fresh(samples) && samples[..] == Samples(data[..], off, len / 2)
    {
      samples := new Short[len / 2];
      for i := 0 to samples.Length
        invariant forall j :: 0 <= j < i ==> samples[j] == Unpack(data[off + 2 * j], data[off + 2 * j + 1])
      {
        samples[i] := Unpack(data[off + i * 2], data[off + i * 2 + 1]);
      }
    }

    /** One pass of `detectSignal`'s loop: store the sample, and check for an inversion every half buffer. */
    method Consume(x: Short) returns (out: seq<int>)
      requires Valid()
      modifies this, buffer, checkBuffer
      ensures Valid()
      ensures (State(), out) == Step(samplesPerSymbol, old(State()), x)
    {
      ghost var w := Written(samplesPerSymbol, State(), x);
      ghost var before := buffer[..];
      sampleCount := sampleCount + 1;
      buffer[bufferIdx] := x;
      assert buffer[..] == before[bufferIdx := x];
      bufferIdx := bufferIdx + 1;
      if bufferIdx >= buffer.Length {
        bufferIdx := 0;
      }
      assert State() == w;
      out := [];
      if (2 * (bufferIdx + checkShift)) % buffer.Length == 0 {
        assert AtCheck(samplesPerSymbol, w);
        out := Check();
        assert (State(), out) == Checked(samplesPerSymbol, w);
      } else {
        assert !AtCheck(samplesPerSymbol, w);
      }
    }

    /** The inversion check, with checkBuffer as scratch space. */
    method Check() returns (out: seq<int>)
      requires Valid()
      modifies this, checkBuffer
      ensures Valid() && bufferIdx == old(bufferIdx)
      ensures (State(), out) == Checked(samplesPerSymbol, old(State()))
      ensures checkBuffer[..] == CheckValues(buffer[..], bufferIdx, samplesPerSymbol)
    {
      var avgAmplitude := FillCheck();
      var leftZeros := CountZeros(0, checkBuffer.Length / 2, avgAmplitude);
      var rightZeros := CountZeros(checkBuffer.Length / 2, checkBuffer.Length, avgAmplitude);
      out := Report(leftZeros, rightZeros);
    }

    /** The end of the check: report a 0, a 1 or nothing, and reset the counters. */
    method Report(leftZeros: nat, rightZeros: nat) returns (out: seq<int>)
      requires Valid() && leftZeros + rightZeros <= samplesPerSymbol
      modifies this
      ensures Valid() && bufferIdx == old(bufferIdx)
      ensures (State(), out) == Decide(samplesPerSymbol, old(State()), leftZeros, rightZeros)
    {
      out := [];
      if leftZeros + rightZeros > checkBuffer.Length / 2 {
        if leftZeros > rightZeros && leftZeros >= rightZeros * 2 {
          sampleCount := samplesPerSymbol - (leftZeros + rightZeros);
          checkShift := checkShift + sampleCount;
        } else {
          sampleCount := leftZeros + rightZeros;
        }
        out := [0];
      } else if sampleCount >= samplesPerSymbol {
        sampleCount := sampleCount % samplesPerSymbol;
        out := [1];
      }
    }

    /** The check's first loop: fill checkBuffer with the sums of the two halves and add up their amplitudes. */
    method FillCheck() returns (avgAmplitude: int)
      requires Valid()
      modifies checkBuffer
      ensures checkBuffer[..] == CheckValues(buffer[..], bufferIdx, samplesPerSymbol)
      ensures avgAmplitude == AmpSum(buffer[..], bufferIdx, samplesPerSymbol)
    {
      ghost var buf := buffer[..];
      var size := buffer.Length;
      avgAmplitude := 0;
      for k := 0 to checkBuffer.Length
        invariant avgAmplitude == AmpSum(buf, bufferIdx, k)
        invariant forall j :: 0 <= j < k ==> checkBuffer[j] == CheckValue(buf, bufferIdx, j)
      {
        var i1 := RingIndex(bufferIdx + k, size);
        var i2 := RingIndex(bufferIdx + k + size / 2, size);
        var v1 := buffer[i1];
        var v2 := buffer[i2];
        assert v1 == Older(buf, bufferIdx, k) && v2 == Newer(buf, bufferIdx, k);
        avgAmplitude := avgAmplitude + (Abs(v1) + Abs(v2));
        checkBuffer[k] := ToShort(v1 as int + v2 as int);
      }
    }

    /** `j % buffer.length` for the indices the check reads. */
    static method RingIndex(j: int, size: int) returns (i: int)
      requires 0 <= j < 2 * size
      ensures i == Wrap(j, size) && 0 <= i < size
    {
      i := j % size;
      ModIsWrap(j, size);
    }

    /** The check's counting loops: how many of checkBuffer[lo .. hi) are below the average amplitude. */
    method CountZeros(lo: nat, hi: nat, avgAmplitude: int) returns (zeros: nat)
      requires Valid() && lo <= hi <= checkBuffer.Length
      ensures zeros == Zeros(checkBuffer[..], lo, hi, avgAmplitude, buffer.Length)
    {
      zeros := 0;
      for k := lo to hi
        invariant zeros == Zeros(checkBuffer[..], lo, k, avgAmplitude, buffer.Length)
      {
        if Abs(checkBuffer[k]) * buffer.Length < avgAmplitude {
          zeros := zeros + 1;
        }
      }
    }

    /** `detectSignal(data, off, len, os)`: the symbols written to os, in order. */
    method DetectSignal(data: array<Byte>, off: nat, len: nat) returns (symbols: seq<int>)
      requires Valid() && off + len <= data.Length
      modifies this, buffer, checkBuffer
      ensures Valid()
      ensures (State(), symbols) == Detect(samplesPerSymbol, old(State()), data[..], off, len)
    {
      var samples := ConvertToSamples(data, off, len);
      symbols := [];
      ghost var d0 := State();
      for sample := 0 to samples.Length
        invariant Valid()
        invariant samples[..] == Samples(data[..], off, len / 2)
        invariant (State(), symbols) == Run(samplesPerSymbol, d0, samples[..sample])
      {
        RunSnoc(samplesPerSymbol, d0, samples[..sample], samples[sample]);
        assert samples[..sample + 1] == samples[..sample] + [samples[sample]];
        ghost var before := State();
        var out := Consume(samples[sample]);
        assert State() == Step(samplesPerSymbol, before, samples[sample]).0;
        assert out == Step(samplesPerSymbol, before, samples[sample]).1;
        symbols := symbols + out;
      }
      assert samples[..samples.Length] == samples[..];
      assert Detect(samplesPerSymbol, d0, data[..], off, len) == Run(samplesPerSymbol, d0, samples[..]);
    }

    /** `detectSignal(data)`: the whole array. */
    method DetectAll(data: array<Byte>) returns (symbols: seq<int>)
      requires Valid()
      modifies this, buffer, checkBuffer
      ensures Valid()
      ensures (State(), symbols) == Detect(samplesPerSymbol, old(State()), data[..], 0, data.Length)
    {
      symbols := DetectSignal(data, 0, data.Length);
    }
  }
}
