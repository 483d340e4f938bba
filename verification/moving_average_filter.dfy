/**
 * `MovingAverageFilter`: the mean of the last n samples, kept as a ring
 * array of the samples, a cursor to the oldest one and their running sum.
 * Doubles are modelled as exact reals.
 */
module MovingAverageFilters {
  import opened JavaTypes
  import opened Sums

  /** The window size `(int)(Math.floor(sampleRate / hz / 2))`: the samples in half a cycle of hz. */
  function HalfCycle(hz: real, sampleRate: int): (n: int)
    requires hz > 0.0 && sampleRate >= 0
    ensures 0 <= n && (n < 0x7fff_ffff ==> n as real <= sampleRate as real / hz / 2.0 < n as real + 1.0)
  {
    DoubleToInt((sampleRate as real / hz / 2.0).Floor as real)
  }

  /** The mean of the last n inputs. */
  function MeanOfLast(inputs: seq<real>, n: nat): real
    requires 1 <= n <= |inputs|
  {
    Sum(inputs[|inputs| - n..]) / n as real
  }

  /** When the last n inputs were all c, their mean is c. */
  lemma MeanOfConstant(inputs: seq<real>, n: nat, c: real)
    requires 1 <= n <= |inputs|
    requires forall k :: |inputs| - n <= k < |inputs| ==> inputs[k] == c
    ensures MeanOfLast(inputs, n) == c
  {
    var last := inputs[|inputs| - n..];
    assert forall k :: 0 <= k < |last| ==> last[k] == inputs[|inputs| - n + k];
    SumConstant(last, c);
  }

  /** Reading a ring from any slot adds up the same samples. */
  lemma RotateSum(s: seq<real>, c: int)
    requires 0 <= c <= |s|
    ensures Sum(s[c..] + s[..c]) == Sum(s)
  {
    assert s == s[..c] + s[c..];
    SumAppend(s[c..], s[..c]);
    SumAppend(s[..c], s[c..]);
  }

  /** Overwriting the oldest slot and advancing the cursor drops the oldest sample from the window and appends the new one. */
  lemma RingStep(ring: seq<real>, c: int, x: real)
    requires 0 <= c < |ring|
    ensures var s, c' := ring[c := x], if c + 1 >= |ring| then 0 else c + 1;
      s[c'..] + s[..c'] == (ring[c..] + ring[..c])[1..] + [x]
  {
    var s := ring[c := x];
    if c + 1 >= |ring| {
      assert s[0..] + s[..0] == s;
      assert s == ring[..c] + [x];
    } else {
      assert s[c + 1..] == ring[c + 1..];
      assert s[..c + 1] == ring[..c] + [x];
    }
  }

  /** The last n inputs after one more: the previous last n without their oldest, then the new one. */
  lemma LastStep(inputs: seq<real>, n: nat, x: real)
    requires 1 <= n <= |inputs|
    ensures var next := inputs + [x];
      next[|next| - n..] == inputs[|inputs| - n..][1..] + [x]
  {
  }

  /** One `process` on the values: the running sum, the window and the inputs stay in step. */
  lemma ProcessStep(ring: seq<real>, c: int, c': int, inputs: seq<real>, partial: real, x: real)
    requires 0 <= c < |ring| <= |inputs| && c' == if c + 1 >= |ring| then 0 else c + 1
    requires partial == Sum(ring) && ring[c..] + ring[..c] == inputs[|inputs| - |ring|..]
    ensures var s, next := ring[c := x], inputs + [x];
      && partial - ring[c] + x == Sum(s)
      && s[c'..] + s[..c'] == next[|next| - |ring|..]
      && Sum(s) == Sum(next[|next| - |ring|..])
  {
    var s, next := ring[c := x], inputs + [x];
    SumUpdate(ring, c, x);
    RingStep(ring, c, x);
    LastStep(inputs, |ring|, x);
    RotateSum(s, c');
  }

  class MovingAverageFilter {
    /** The previous n samples, as a ring. */
    const samples: array<real>

    /** The sum of `samples`. */
    var partialResult: real

    /** The slot the next sample replaces: the oldest sample. */
    var current: int

    /** Every sample processed so far, after `samples.Length` zeros standing for the samples not yet seen. */
    ghost var inputs: seq<real>

    /** The window oldest first: from the cursor to the end, then from the start to the cursor. */
    ghost function Window(): seq<real>
      requires 0 <= current <= samples.Length
      reads this, samples
    {
      samples[current..] + samples[..current]
    }

    ghost predicate Valid()
      reads this, samples
    {
      && 0 <= current && (current < samples.Length || current == 0)
      && partialResult == Sum(samples[..])
      && |inputs| >= samples.Length
      && Window() == inputs[|inputs| - samples.Length..]
    }

    /** `MovingAverageFilter(samples)`: a window of n zeros. */
    constructor (n: int)
      requires n >= 0
      ensures Valid() && fresh(samples)
      ensures samples[..] == seq(n, _ => 0.0) && partialResult == 0.0 && current == 0
    {
      samples := new real[n](_ => 0.0);
      partialResult := 0.0;
      current := 0;
      inputs := seq(n, _ => 0.0);
      new;
      SumConstant(samples[..], 0.0);
      assert Window() == samples[..];
    }

    /** `MovingAverageFilter(hz, sampleRate)`: a window of zeros half a cycle of hz long. */
    constructor FromFrequency(hz: real, sampleRate: int)
      requires hz > 0.0 && sampleRate >= 0
      ensures Valid() && fresh(samples)
      ensures samples[..] == seq(HalfCycle(hz, sampleRate), _ => 0.0) && partialResult == 0.0 && current == 0
    {
      var n := HalfCycle(hz, sampleRate);
      samples := new real[n](_ => 0.0);
      partialResult := 0.0;
      current := 0;
      inputs := seq(n, _ => 0.0);
      new;
      SumConstant(samples[..], 0.0);
      assert Window() == samples[..];
    }

    /**
     * `process(data)`: replace the oldest sample with data, advance the
     * cursor, and return the mean of the last n inputs.
     */
    method Process(data: real) returns (r: real)
      requires Valid() && samples.Length >= 1
      modifies this, samples
      ensures Valid()
      ensures samples[..] == old(samples[..])[old(current) := data]
      ensures current == if old(current) + 1 >= samples.Length then 0 else old(current) + 1
      ensures inputs == old(inputs) + [data]
      ensures r == MeanOfLast(inputs, samples.Length)
    {
      ghost var before := samples[..];
      ghost var next := if current + 1 >= samples.Length then 0 else current + 1;
      ProcessStep(before, current, next, inputs, partialResult, data);
      partialResult := partialResult - samples[current];
      partialResult := partialResult + data;
      samples[current] := data;
      assert samples[..] == before[current := data];
      current := current + 1;
      if current >= samples.Length {
        current := 0;
      }
      inputs := inputs + [data];
      r := partialResult / samples.Length as real;
    }
  }
}
