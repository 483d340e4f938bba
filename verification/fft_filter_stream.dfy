/**
 * `FftFilterStream`: a block buffer in front of a filter. Samples are
 * written into a buffer of the filter's block length; the write that fills
 * it runs the filter over it in place, and no further write is accepted
 * until the caller takes the results and resets the fill. The stream runs
 * over a `ConvolutionFilter`, the filter that has the `sampleCount()` and
 * `getOverlap()` the stream calls.
 */
module FftFilterStreams {
  import opened JavaTypes
  import opened ConvolutionFilters

  /** b whole blocks of s cover n up to less than one more block: b is n / s. */
  lemma FloorOfMultiple(b: int, s: int, n: int)
    requires 0 < s && 0 <= b && b * s <= n < b * s + s
    ensures n / s == b
  {
    var q := n / s;
    assert q * s <= n < q * s + s;
    if q < b {
      assert (q + 1) * s <= b * s by {
        MulMonotone(q + 1, b, s);
      }
    } else if q > b {
      assert (b + 1) * s <= q * s by {
        MulMonotone(b + 1, q, s);
      }
    }
  }

  /** The samples in n whole blocks of the given size, counted block by block. */
  function Whole(n: nat, size: int): int
  {
    if n == 0 then 0 else Whole(n - 1, size) + size
  }

  /** Counting block by block is multiplying. */
  lemma {:induction false} WholeIsProduct(n: nat, size: int)
    ensures Whole(n, size) == n * size
  {
    if n > 0 {
      WholeIsProduct(n - 1, size);
    }
  }

  lemma MulMonotone(a: int, b: int, s: int)
    requires a <= b && 0 < s
    ensures a * s <= b * s
  {
    assert b * s - a * s == (b - a) * s;
  }

  /**
   * `apply` so far, over the samples orig it started from and the samples
   * cur now: orig[start .. start + done) consumed by the filter and
   * replaced in cur by what it emitted, orig[start + done .. start + taken)
   * waiting at the front of the buffer, and everything else in cur as in
   * orig.
   */
  ghost predicate InPlace(orig: seq<real>, cur: seq<real>, start: int, done: int, taken: int,
                          c0: seq<real>, consumed: seq<real>, e0: seq<real>, emitted: seq<real>, waiting: seq<real>)
  {
    && 0 <= start && 0 <= done <= taken && start + taken <= |orig| == |cur| && taken - done <= |waiting|
    && cur[..start] == orig[..start] && cur[start + done..] == orig[start + done..]
    && consumed == c0 + orig[start..start + done]
    && emitted == e0 + cur[start..start + done]
    && waiting[..taken - done] == orig[start + done..start + taken]
  }

  /** A full block at start + done, filtered and written back over itself, extends the progress by n. */
  lemma InPlaceBlock(orig: seq<real>, pre: seq<real>, post: seq<real>, start: int, done: int, n: int,
                     c0: seq<real>, consumed: seq<real>, consumed': seq<real>, e0: seq<real>, emitted: seq<real>, emitted': seq<real>,
                     waiting: seq<real>, waiting': seq<real>)
    requires InPlace(orig, pre, start, done, done, c0, consumed, e0, emitted, waiting)
    requires 0 <= n && start + done + n <= |pre| == |post|
    requires post[..start + done] == pre[..start + done] && post[start + done + n..] == pre[start + done + n..]
    requires consumed' == consumed + pre[start + done..start + done + n]
    requires emitted' == emitted + post[start + done..start + done + n]
    ensures InPlace(orig, post, start, done + n, done + n, c0, consumed', e0, emitted', waiting')
  {
    var at := start + done;
    assert post[..start] == post[..at][..start];
    assert pre[at..at + n] == orig[at..][..n] == orig[at..at + n];
    assert orig[start..at] + orig[at..at + n] == orig[start..at + n];
    assert pre[start..at] == post[..at][start..];
    assert post[start..at] + post[at..at + n] == post[start..at + n];
    assert post[at + n..] == pre[at..][n..] == orig[at + n..];
  }

  /** Fewer than a block, taken into the empty buffer, extend what is waiting by n. */
  lemma InPlaceWaiting(orig: seq<real>, cur: seq<real>, start: int, done: int, n: int,
                       c0: seq<real>, consumed: seq<real>, e0: seq<real>, emitted: seq<real>, waiting: seq<real>, waiting': seq<real>)
    requires InPlace(orig, cur, start, done, done, c0, consumed, e0, emitted, waiting)
    requires 0 <= n <= |waiting'| && start + done + n <= |cur|
    requires waiting'[..n] == cur[start + done..start + done + n]
    ensures InPlace(orig, cur, start, done, done + n, c0, consumed, e0, emitted, waiting')
  {
    var at := start + done;
    assert cur[at..at + n] == cur[at..][..n] == orig[at..][..n];
  }

  /**
   * One `write` of n samples at index at, from samples pre to samples post,
   * into an empty buffer of the given size: a full block filtered and
   * written back over itself, or fewer samples left waiting in the buffer.
   */
  ghost predicate BlockStep(pre: seq<real>, post: seq<real>, at: int, n: int, size: int,
                            consumed: seq<real>, consumed': seq<real>, emitted: seq<real>, emitted': seq<real>,
                            waiting': seq<real>)
  {
    && 0 < n <= size && 0 <= at && at + n <= |pre| == |post|
    && (n == size ==>
          && post[..at] == pre[..at] && post[at + n..] == pre[at + n..]
          && consumed' == consumed + pre[at..at + n] && emitted' == emitted + post[at..at + n])
    && (n < size ==>
          && post == pre && consumed' == consumed && emitted' == emitted
          && n <= |waiting'| && waiting'[..n] == pre[at..at + n])
  }

  /** One pass from the empty buffer: a full block written back, or fewer samples left waiting. */
  lemma InPlaceStep(orig: seq<real>, pre: seq<real>, post: seq<real>, start: int, done: int, n: int, size: int,
                    done': int, taken': int,
                    c0: seq<real>, consumed: seq<real>, consumed': seq<real>, e0: seq<real>, emitted: seq<real>, emitted': seq<real>,
                    waiting: seq<real>, waiting': seq<real>)
    requires InPlace(orig, pre, start, done, done, c0, consumed, e0, emitted, waiting)
    requires BlockStep(pre, post, start + done, n, size, consumed, consumed', emitted, emitted', waiting')
    requires done' == (if n == size then done + n else done) && taken' == done + n
    ensures InPlace(orig, post, start, done', taken', c0, consumed', e0, emitted', waiting')
  {
    if n == size {
      InPlaceBlock(orig, pre, post, start, done, n, c0, consumed, consumed', e0, emitted, emitted', waiting, waiting');
    } else {
      InPlaceWaiting(orig, pre, start, done, n, c0, consumed, e0, emitted, waiting, waiting');
    }
  }

  /**
   * One pass of `apply`'s loop as indices: `write` takes `written` of the
   * rest samples still to apply, and when that fills the buffer the
   * `copied` outputs are put back into samples from the pass's first
   * index on.
   */
  datatype Pass = Pass(written: int, copied: int)

  /**
   * Lines 42-56, one pass of `apply` from a buffer of size size already
   * holding fill samples (a full buffer makes `write` fail instead).
   */
  function PassAsWritten(size: int, fill: int, rest: int): (p: Pass)
    requires 0 <= fill < size && 0 < rest
    ensures 0 < p.written <= rest && fill + p.written <= size
    ensures p.copied == size <==> fill + rest >= size
    ensures p.copied == 0 <==> fill + rest < size
  {
    var written := if fill + rest <= size then rest else size - fill;
    Pass(written, if fill + written == size then size else 0)
  }

  /**
   * From a buffer already holding fill > 0 samples, a pass that fills it
   * copies fill more outputs than the samples it took, past the pass's
   * window whenever the rest is shorter than a block.
   */
  lemma PassOverruns(size: int, fill: int, rest: int)
    requires 0 < fill < size && 0 < rest && fill + rest >= size
    ensures PassAsWritten(size, fill, rest).copied == PassAsWritten(size, fill, rest).written + fill
    ensures rest < size ==> PassAsWritten(size, fill, rest).copied > rest
  {
  }

  /**
   * A block of 4 with 2 samples waiting, applied to 3 samples: the pass
   * takes 2, copies 4 into a window of 3, and `apply` counts 4 samples
   * written out of 3.
   */
  lemma PassOverrunExample()
    ensures PassAsWritten(4, 2, 3) == Pass(2, 4)
    ensures PassAsWritten(4, 2, 3).copied > 3
  {
  }

  /**
   * From an empty buffer a pass copies back nothing or exactly the samples
   * it took: its outputs replace its own samples and stay in its window.
   */
  lemma PassFromEmpty(size: int, rest: int)
    requires 0 < size && 0 < rest
    ensures PassAsWritten(size, 0, rest).copied in {0, PassAsWritten(size, 0, rest).written}
    ensures PassAsWritten(size, 0, rest).copied <= rest
  {
  }

  class FftFilterStream {
    /** `filter` */
    var filter: ConvolutionFilter
    /** `buffer`: one block. */
    var buffer: array<real>
    /** `bufferFill`: how much of the buffer holds samples. */
    var bufferFill: int
    /** `closed`: set false by the constructor and never set true. */
    var closed: bool

    ghost predicate Valid()
      reads this, filter, filter.overlap
    {
      && filter.Valid()
      && buffer.Length == filter.sampleCount
      && 0 <= bufferFill <= buffer.Length
    }

    /** `resultsAvailable()`: the buffer is full of filtered samples. */
    predicate ResultsAvailable()
      reads this
    {
      bufferFill == buffer.Length
    }

    /** `samplesToWrite`: all length samples, or as many as still fit. */
    function ToWrite(length: int): int
      reads this
    {
      if bufferFill + length <= buffer.Length then length else buffer.Length - bufferFill
    }

    /** The filter's state is as it was. */
    twostate predicate FilterUnchanged()
      reads this, filter, filter.overlap
    {
      && filter.overlap[..] == old(filter.overlap[..])
      && filter.consumed == old(filter.consumed) && filter.emitted == old(filter.emitted)
    }

    /**
     * What `write(samples, start, length)` does: refuse with an
     * `IOException` when closed or when results are waiting, return 0 for
     * an empty write, and otherwise append min(length, room) samples in
     * order, running the filter over the buffer when that fills it.
     */
    twostate predicate Wrote(samples: array<real>, start: int, length: int, new r: Result<int>)
      reads this, buffer, filter, filter.overlap, samples
    {
      && filter == old(filter) && buffer == old(buffer) && closed == old(closed)
      && (old(closed) || length == 0 || old(ResultsAvailable()) ==>
          && r == (if !old(closed) && length == 0 then Success(0) else Failure(IOException))
          && bufferFill == old(bufferFill) && buffer[..] == old(buffer[..]) && FilterUnchanged())
      && (!old(closed) && length > 0 && !old(ResultsAvailable()) ==> Accepted(samples, start, length, r))
    }

    /** A write that is accepted: min(length, room) samples appended, and the buffer filtered if now full. */
    twostate predicate Accepted(samples: array<real>, start: int, length: int, new r: Result<int>)
      reads this, buffer, filter, filter.overlap, samples
    {
      && old(Valid()) && 0 < length && old(!ResultsAvailable())
      && 0 <= start && start + old(ToWrite(length)) <= samples.Length
      && filter == old(filter) && buffer == old(buffer)
      && r == Success(old(ToWrite(length)))
      && bufferFill == old(bufferFill) + old(ToWrite(length))
      && var filled := old(buffer[..bufferFill]) + old(samples[start..start + ToWrite(length)]);
         && (bufferFill < buffer.Length ==>
             buffer[..] == filled + old(buffer[..])[bufferFill..] && FilterUnchanged())
         && (bufferFill == buffer.Length ==>
             && buffer[..] == FilterBlock(filled, filter.KernelTaps(), old(filter.overlap[..])).output
             && filter.overlap[..] == FilterBlock(filled, filter.KernelTaps(), old(filter.overlap[..])).overlap
             && filter.consumed == old(filter.consumed) + filled
             && filter.emitted == old(filter.emitted) + buffer[..])
    }

    /** `FftFilterStream(filter)`: through `setFilter`, and not closed. */
    constructor (filter: ConvolutionFilter)
      requires filter.Valid()
      ensures Valid() && this.filter == filter && !closed
      ensures fresh(buffer) && buffer[..] == seq(filter.sampleCount, _ => 0.0) && bufferFill == 0
    {
      this.filter := filter;
      buffer := new real[filter.sampleCount](_ => 0.0);
      bufferFill := 0;
      closed := false;
    }

    /** `setFilter(filter)`: a new zeroed buffer of the filter's block length, empty. */
    method SetFilter(filter: ConvolutionFilter)
      requires filter.Valid()
      modifies this`filter, this`buffer, this`bufferFill
      ensures Valid() && this.filter == filter
      ensures fresh(buffer) && buffer[..] == seq(filter.sampleCount, _ => 0.0) && bufferFill == 0
    {
      this.filter := filter;
      buffer := new real[filter.sampleCount](_ => 0.0);
      bufferFill := 0;
    }

    /** `write(samples, start, length)`. */
    method Write(samples: array<real>, start: int, length: int) returns (r: Result<int>)
      requires Valid() && 0 <= length && samples != buffer
      requires length > 0 && !closed && !ResultsAvailable() ==>
        0 <= start && start + ToWrite(length) <= samples.Length
      modifies this`bufferFill, buffer, filter, filter.overlap
      ensures Valid() && Wrote(samples, start, length, r)
    {
      if closed {
        return Failure(IOException);
      }
      if length == 0 {
        return Success(0);
      }
      if ResultsAvailable() {
        return Failure(IOException);
      }
      r := WriteSome(samples, start, length);
    }

    /** Lines 118-129: the write once it is accepted. */
    method WriteSome(samples: array<real>, start: int, length: int) returns (r: Result<int>)
      requires Valid() && 0 < length && samples != buffer && !ResultsAvailable()
      requires 0 <= start && start + ToWrite(length) <= samples.Length
      modifies this`bufferFill, buffer, filter, filter.overlap
      ensures Valid() && Accepted(samples, start, length, r)
    {
      var samplesToWrite := ToWrite(length);
      ghost var filled := buffer[..bufferFill] + samples[start..start + samplesToWrite];
      Append(samples, start, samplesToWrite);
      if ResultsAvailable() {
        assert buffer[..] == filled;
        var _ := filter.Filter(buffer);
      }
      return Success(samplesToWrite);
    }

    /** Lines 118-123: n samples appended to the buffer. */
    method Append(samples: array<real>, start: int, n: int)
      requires Valid() && samples != buffer
      requires 0 <= n && bufferFill + n <= buffer.Length && 0 <= start && start + n <= samples.Length
      modifies this`bufferFill, buffer
      ensures Valid() && bufferFill == old(bufferFill) + n
      ensures buffer[..] == old(buffer[..bufferFill]) + samples[start..start + n] + old(buffer[..])[bufferFill..]
    {
      CopyRange(samples, start, buffer, bufferFill, n);
      bufferFill := bufferFill + n;
    }

    /** `write(samples)`: the whole array. */
    method WriteAll(samples: array<real>) returns (r: Result<int>)
      requires Valid() && samples != buffer
      modifies this`bufferFill, buffer, filter, filter.overlap
      ensures Valid() && Wrote(samples, 0, samples.Length, r)
    {
      r := Write(samples, 0, samples.Length);
    }

    /** `write(samples, length)`: the first length samples. */
    method WriteFront(samples: array<real>, length: int) returns (r: Result<int>)
      requires Valid() && 0 <= length && samples != buffer
      requires length > 0 && !closed && !ResultsAvailable() ==> ToWrite(length) <= samples.Length
      modifies this`bufferFill, buffer, filter, filter.overlap
      ensures Valid() && Wrote(samples, 0, length, r)
    {
      r := Write(samples, 0, length);
    }

    /** `write(sample)`: one sample, its count discarded. */
    method WriteSample(sample: real) returns (r: Result<()>)
      requires Valid()
      modifies this`bufferFill, buffer, filter, filter.overlap
      ensures Valid()
      ensures r.Failure? <==> old(closed) || old(ResultsAvailable())
      ensures r.Failure? ==> r.error == IOException && bufferFill == old(bufferFill) && buffer[..] == old(buffer[..])
      ensures r.Failure? ==> FilterUnchanged()
      ensures r.Success? ==> bufferFill == old(bufferFill) + 1
      ensures r.Success? && bufferFill < buffer.Length ==>
        buffer[..] == old(buffer[..])[old(bufferFill) := sample] && FilterUnchanged()
      ensures r.Success? && bufferFill == buffer.Length ==>
        var filled := old(buffer[..bufferFill]) + [sample];
        && buffer[..] == FilterBlock(filled, filter.KernelTaps(), old(filter.overlap[..])).output
        && filter.overlap[..] == FilterBlock(filled, filter.KernelTaps(), old(filter.overlap[..])).overlap
        && filter.consumed == old(filter.consumed) + filled
        && filter.emitted == old(filter.emitted) + buffer[..]
    {
      var samples := new real[1](_ => sample);
      var w := Write(samples, 0, 1);
      if w.Failure? {
        return Failure(w.error);
      }
      assert samples[0..1] == [sample];
      return Success(());
    }

    /**
     * One pass of `apply`'s loop at position at, with rest > 0 samples left
     * and an empty buffer: a full block is written, filtered and copied back
     * over itself; fewer than a block are left waiting in the buffer.
     */
    method ApplyBlock(samples: array<real>, at: int, rest: int) returns (r: Result<int>)
      requires Valid() && bufferFill == 0 && samples != buffer && samples != filter.overlap
      requires 0 < rest && 0 <= at && at + rest <= samples.Length
      modifies this`bufferFill, buffer, filter, filter.overlap, samples
      ensures Valid()
      ensures closed ==>
        && r == Failure(IOException) && bufferFill == 0 && buffer[..] == old(buffer[..])
        && samples[..] == old(samples[..]) && FilterUnchanged()
      ensures !closed ==> r.Success? && r.value == (if rest < buffer.Length then rest else buffer.Length)
      ensures !closed ==> bufferFill == (if rest < buffer.Length then rest else 0)
      ensures !closed && rest < buffer.Length ==> FilterUnchanged()
      ensures !closed ==> BlockStep(old(samples[..]), samples[..], at, r.value, buffer.Length,
                                    old(filter.consumed), filter.consumed, old(filter.emitted), filter.emitted, buffer[..])
    {
      r := Write(samples, at, rest);
      if r.Failure? {
        return;
      }
      assert Accepted(samples, at, rest, r);
      if ResultsAvailable() {
        ghost var block := buffer[..];
        assert filter.emitted == old(filter.emitted) + block;
        assert filter.consumed == old(filter.consumed) + old(samples[at..at + buffer.Length]);
        CopyRange(buffer, 0, samples, at, bufferFill);
        assert samples[at..at + buffer.Length] == block;
        bufferFill := 0;
      } else {
        assert buffer[..rest] == old(samples[at..at + rest]);
      }
    }

    /**
     * `apply(samples, start, length)` from an empty buffer: each full block
     * of samples[start .. start + length) is replaced by its filtered
     * outputs, the count of those is returned, and the samples past the
     * last full block are left waiting in the buffer.
     */
    method Apply(samples: array<real>, start: int, length: int) returns (r: Result<int>)
      requires Valid() && bufferFill == 0 && samples != buffer && samples != filter.overlap
      requires length > 0 ==> 0 <= start && start + length <= samples.Length
      modifies this`bufferFill, buffer, filter, filter.overlap, samples
      ensures Valid() && AppliedTo(samples, start, length, r)
    {
      ghost var blocks;
      r, blocks := ApplyLoop(samples, start, length, samples[..], filter.consumed, filter.emitted);
      if length > 0 && r.Success? {
        WholeIsProduct(blocks, buffer.Length);
        FloorOfMultiple(blocks, buffer.Length, length);
      }
    }

    /**
     * Lines 38-59, `apply`'s loop, from the progress InPlace(orig, ..., 0, 0, ...):
     * whole blocks of the samples replaced, the rest waiting in the buffer.
     */
    method ApplyLoop(samples: array<real>, start: int, length: int,
                     ghost orig: seq<real>, ghost c0: seq<real>, ghost e0: seq<real>)
      returns (r: Result<int>, ghost blocks: nat)
      requires Valid() && bufferFill == 0 && samples != buffer && samples != filter.overlap
      requires length > 0 ==> 0 <= start && start + length <= samples.Length
      requires length > 0 ==> InPlace(orig, samples[..], start, 0, 0, c0, filter.consumed, e0, filter.emitted, buffer[..])
      modifies this`bufferFill, buffer, filter, filter.overlap, samples
      ensures Valid()
      ensures length <= 0 || closed ==>
        && r == (if length <= 0 then Success(0) else Failure(IOException))
        && bufferFill == 0 && buffer[..] == old(buffer[..]) && samples[..] == old(samples[..]) && FilterUnchanged()
      ensures length > 0 && !closed ==>
        && r.Success? && r.value == Whole(blocks, buffer.Length) <= length < r.value + buffer.Length
        && bufferFill == length - r.value
        && InPlace(orig, samples[..], start, r.value, length, c0, filter.consumed, e0, filter.emitted, buffer[..])
    {
      var writtenTotal := 0;
      blocks := 0;
      var i := 0;
      while i < length
        invariant Valid() && 0 <= writtenTotal <= i <= (if length > 0 then length else 0)
        invariant writtenTotal == Whole(blocks, buffer.Length)
        invariant bufferFill == i - writtenTotal < buffer.Length
        invariant bufferFill > 0 ==> i == length
        invariant i == 0 ==> buffer[..] == old(buffer[..]) && samples[..] == old(samples[..]) && FilterUnchanged()
        invariant closed ==> i == 0
        invariant length > 0 ==> InPlace(orig, samples[..], start, writtenTotal, i, c0, filter.consumed, e0, filter.emitted, buffer[..])
      {
        var written;
        ghost var b := blocks;
        written, writtenTotal, i := ApplyStep(samples, start, i, length, orig, c0, e0);
        if written.Failure? {
          return Failure(written.error), blocks;
        }
        if written.value == buffer.Length {
          blocks := b + 1;
        }
      }
      return Success(writtenTotal), blocks;
    }

    /**
     * `ApplyBlock` at position start + done of an `apply` that began from
     * orig: the progress grows by a full block, or by the samples left over
     * now waiting in the buffer.
     */
    method ApplyStep(samples: array<real>, start: int, done: int, length: int,
                     ghost orig: seq<real>, ghost c0: seq<real>, ghost e0: seq<real>)
      returns (r: Result<int>, writtenTotal: int, i: int)
      requires Valid() && bufferFill == 0 && samples != buffer && samples != filter.overlap
      requires 0 <= done < length && start + length <= samples.Length
      requires InPlace(orig, samples[..], start, done, done, c0, filter.consumed, e0, filter.emitted, buffer[..])
      modifies this`bufferFill, buffer, filter, filter.overlap, samples
      ensures Valid()
      ensures closed ==>
        && r == Failure(IOException) && bufferFill == 0 && buffer[..] == old(buffer[..])
        && samples[..] == old(samples[..]) && FilterUnchanged()
      ensures !closed ==>
        && r.Success? && 0 < r.value == (if length - done < buffer.Length then length - done else buffer.Length)
        && i == done + r.value && writtenTotal == (if r.value == buffer.Length then i else done)
        && bufferFill == i - writtenTotal < buffer.Length && (bufferFill > 0 ==> i == length)
        && InPlace(orig, samples[..], start, writtenTotal, i, c0, filter.consumed, e0, filter.emitted, buffer[..])
    {
      ghost var pre, c, e := samples[..], filter.consumed, filter.emitted;
      assert buffer.Length > 0;
      r := ApplyBlock(samples, start + done, length - done);
      if r.Failure? {
        return r, done, done;
      }
      i := done + r.value;
      writtenTotal := if r.value == buffer.Length then i else done;
      InPlaceStep(orig, pre, samples[..], start, done, r.value, buffer.Length, writtenTotal, i,
                  c0, c, filter.consumed, e0, e, filter.emitted, old(buffer[..]), buffer[..]);
    }

    /** `apply` so far, as `InPlace` over this call's starting state. */
    twostate predicate Progress(samples: array<real>, start: int, done: int, taken: int)
      reads this, buffer, filter, samples
    {
      InPlace(old(samples[..]), samples[..], start, done, taken,
              old(filter.consumed), filter.consumed, old(filter.emitted), filter.emitted, buffer[..])
    }

    /** What `apply(samples, start, length)` does, as in `Apply`. */
    twostate predicate AppliedTo(samples: array<real>, start: int, length: int, new r: Result<int>)
      reads this, buffer, filter, filter.overlap, samples
    {
      && filter == old(filter) && buffer == old(buffer) && closed == old(closed)
      && (length <= 0 || old(closed) ==>
          && r == (if length <= 0 then Success(0) else Failure(IOException))
          && bufferFill == old(bufferFill) && buffer[..] == old(buffer[..])
          && samples[..] == old(samples[..]) && FilterUnchanged())
      && (length > 0 && !old(closed) ==>
          && r.Success? && 0 <= r.value <= length < r.value + buffer.Length
          && r.value == length / buffer.Length * buffer.Length
          && bufferFill == length - r.value
          && Progress(samples, start, r.value, length))
    }

    /** `apply(samples, length)`: from the front of the array. */
    method ApplyFront(samples: array<real>, length: int) returns (r: Result<int>)
      requires Valid() && bufferFill == 0 && length <= samples.Length && samples != buffer && samples != filter.overlap
      modifies this`bufferFill, buffer, filter, filter.overlap, samples
      ensures Valid() && AppliedTo(samples, 0, length, r)
    {
      r := Apply(samples, 0, length);
    }

    /** `apply(samples)`: the whole array. */
    method ApplyAll(samples: array<real>) returns (r: Result<int>)
      requires Valid() && bufferFill == 0 && samples != buffer && samples != filter.overlap
      modifies this`bufferFill, buffer, filter, filter.overlap, samples
      ensures Valid() && AppliedTo(samples, 0, samples.Length, r)
    {
      r := Apply(samples, 0, samples.Length);
    }

    /** `reset()`: empty the buffer without clearing it, and return it. */
    method Reset() returns (b: array<real>)
      requires Valid()
      modifies this`bufferFill
      ensures Valid() && bufferFill == 0 && b == buffer
    {
      bufferFill := 0;
      return buffer;
    }

    /**
     * `close()`: the filter's overlap into the front of the buffer, which
     * then counts as filled to that length. The stream stays open.
     */
    method Close()
      requires Valid()
      modifies this`bufferFill, buffer
      ensures Valid() && !ResultsAvailable()
      ensures buffer[..] == old(filter.overlap[..]) + old(buffer[filter.overlap.Length..])
      ensures bufferFill == filter.overlap.Length
    {
      CopyRange(filter.overlap, 0, buffer, 0, filter.overlap.Length);
      bufferFill := filter.overlap.Length;
    }
  }
}
