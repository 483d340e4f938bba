/**
 * BpskInputStream: the Varicode decoder. Symbols from the detector are
 * collected in `symbolBuffer`; the unread ones are those in
 * [symbolBufferOff, symbolBufferFill). `read()` matches them against the
 * trie built from `CHARSET`.
 *
 * The audio stream and the detector behind it are modelled by the symbol
 * batches that the coming reads of the audio stream make the detector
 * emit, in order; when no batch is left the audio stream is at its end.
 */
module BpskInputStreams {
  import opened JavaTypes
  import opened Varicode
  import opened CharsetTrees
  import opened VaricodeStream

  /** All symbols of the batches, in order. */
  function Flatten(batches: seq<seq<int>>): seq<int>
  {
    if |batches| == 0 then [] else batches[0] + Flatten(batches[1..])
  }

  predicate AllBatchesSymbols(batches: seq<seq<int>>)
  {
    forall i :: 0 <= i < |batches| ==> AllSymbols(batches[i])
  }

  lemma FlattenSymbols(batches: seq<seq<int>>)
    requires AllBatchesSymbols(batches)
    ensures AllSymbols(Flatten(batches))
  {
    if |batches| > 0 {
      assert AllSymbols(batches[0]);
      FlattenSymbols(batches[1..]);
    }
  }

  /** Moving a batch from upstream into the buffer keeps the pending symbols. */
  lemma {:induction false} PendingAfterBatch(buffered: seq<int>, off: nat, batches: seq<seq<int>>)
    requires off <= |buffered| && |batches| > 0
    ensures (buffered + batches[0])[off..] + Flatten(batches[1..]) == buffered[off..] + Flatten(batches)
  {
    var x, b, f := buffered[off..], batches[0], Flatten(batches[1..]);
    assert (buffered + b)[off..] == x + b;
    assert Flatten(batches) == b + f;
    assert (x + b) + f == x + (b + f);
  }

  /** The initial size of `symbolBuffer`. */
  const InitialSymbolBufferSize: nat := 100

  class BpskInputStream {
    /** `CHARSET`, as the decoder sees it. */
    const charset: seq<Option<seq<int>>>
    /** `CHARSETTREE`, built once from `CHARSET`. */
    const charsetTree: Tree
    /** `LONGEST_CHARACTER`. */
    const longestCharacter: nat

    var symbolBuffer: array<int>
    var symbolBufferOff: nat
    var symbolBufferFill: nat
    /** The symbol batches the detector will emit for the coming reads of the audio stream. */
    var upstream: seq<seq<int>>

    ghost predicate Valid()
      reads this, symbolBuffer
    {
      && symbolBufferOff <= symbolBufferFill <= symbolBuffer.Length
      && symbolBuffer.Length >= InitialSymbolBufferSize
      && AllSymbols(symbolBuffer[symbolBufferOff..symbolBufferFill])
      && AllBatchesSymbols(upstream)
    }

    /** The trie and LONGEST_CHARACTER the static initializer computes; both are constants. */
    predicate TreeBuilt()
    {
      ValidTable(charset) && charsetTree == CharsetTreeOf(charset) && longestCharacter == MaxCodeLength
    }

    /** The symbols not yet consumed: those buffered, then those still upstream. */
    ghost function Pending(): (p: seq<int>)
      requires Valid()
      reads this, symbolBuffer
      ensures AllSymbols(p)
    {
      FlattenSymbols(upstream);
      AllSymbolsConcat(symbolBuffer[symbolBufferOff..symbolBufferFill], Flatten(upstream));
      symbolBuffer[symbolBufferOff..symbolBufferFill] + Flatten(upstream)
    }

    /** The stream over the audio stream whose reads yield the given symbol batches. */
    constructor (batches: seq<seq<int>>)
      requires AllBatchesSymbols(batches)
      ensures Valid() && TreeBuilt() && charset == Charset()
      ensures symbolBuffer.Length == InitialSymbolBufferSize
      ensures symbolBufferOff == 0 && symbolBufferFill == 0 && upstream == batches
      ensures Pending() == Flatten(batches)
    {
      CharsetValid();
      BuildTreeContents(Charset(), |Charset()|);
      var tree, longest := BuildCharsetTree(Charset());
      CharsetLongest();
      charset := Charset();
      charsetTree := tree.value;
      longestCharacter := longest;
      symbolBuffer := new int[InitialSymbolBufferSize];
      symbolBufferFill := 0;
      symbolBufferOff := 0;
      upstream := batches;
      new;
      assert symbolBuffer[0..0] == [];
    }

    /**
     * `compactSymbolBuffer`: move the unread symbols to the front of the
     * buffer, in order, and set the offset to 0.
     */
    method CompactSymbolBuffer()
      requires Valid()
      modifies this, symbolBuffer
      ensures Valid()
      ensures symbolBuffer == old(symbolBuffer) && upstream == old(upstream)
      ensures symbolBufferOff == 0 && symbolBufferFill == old(symbolBufferFill - symbolBufferOff)
      ensures symbolBuffer[..symbolBufferFill] == old(symbolBuffer[symbolBufferOff..symbolBufferFill])
      ensures Pending() == old(Pending())
    {
      ghost var unread := symbolBuffer[symbolBufferOff..symbolBufferFill];
      var i := symbolBufferOff;
      while i < symbolBufferFill
        modifies symbolBuffer
        invariant symbolBufferOff <= i <= symbolBufferFill
        invariant forall k :: 0 <= k < i - symbolBufferOff ==> symbolBuffer[k] == unread[k]
        invariant forall k :: i <= k < symbolBufferFill ==> symbolBuffer[k] == unread[k - symbolBufferOff]
      {
        symbolBuffer[i - symbolBufferOff] := symbolBuffer[i];
        i := i + 1;
      }
      symbolBufferFill := symbolBufferFill - symbolBufferOff;
      symbolBufferOff := 0;
      assert symbolBuffer[0..symbolBufferFill] == symbolBuffer[..symbolBufferFill] == unread;
    }

    /**
     * `SymbolBufferOutputStream.write`: append one symbol, first doubling
     * the buffer when it is full.
     */
    method WriteSymbol(symbol: int)
      requires Valid() && IsSymbol(symbol)
      modifies this, symbolBuffer
      ensures Valid()
      ensures symbolBuffer == old(symbolBuffer) || fresh(symbolBuffer)
      ensures symbolBuffer.Length == if old(symbolBufferFill) >= old(symbolBuffer.Length) then 2 * old(symbolBuffer.Length) else old(symbolBuffer.Length)
      ensures symbolBufferOff == old(symbolBufferOff) && symbolBufferFill == old(symbolBufferFill) + 1
      ensures symbolBuffer[..symbolBufferFill] == old(symbolBuffer[..symbolBufferFill]) + [symbol]
      ensures upstream == old(upstream)
    {
      ghost var prev := symbolBuffer[..symbolBufferFill];
      if symbolBufferFill >= symbolBuffer.Length {
        var larger := new int[2 * symbolBuffer.Length];
        forall k | 0 <= k < symbolBuffer.Length {
          larger[k] := symbolBuffer[k];
        }
        assert larger[..symbolBufferFill] == prev;
        symbolBuffer := larger;
      }
      symbolBuffer[symbolBufferFill] := symbol;
      symbolBufferFill := symbolBufferFill + 1;
      assert symbolBuffer[..symbolBufferFill] == prev + [symbol];
      assert symbolBuffer[symbolBufferOff..symbolBufferFill] == prev[symbolBufferOff..] + [symbol];
    }

    /**
     * `getSymbols`: read the audio stream once; -1 at its end, otherwise
     * append the batch of symbols the detector emits and return its size.
     */
    method GetSymbols() returns (n: int)
      requires Valid()
      modifies this, symbolBuffer
      ensures Valid()
      ensures symbolBuffer == old(symbolBuffer) || fresh(symbolBuffer)
      ensures symbolBufferOff == old(symbolBufferOff)
      ensures old(upstream) == [] ==> n == -1 && symbolBufferFill == old(symbolBufferFill) && upstream == []
      ensures old(upstream) != [] ==>
        && n == |old(upstream)[0]|
        && upstream == old(upstream)[1..]
        && symbolBufferFill == old(symbolBufferFill) + n
        && symbolBuffer[..symbolBufferFill] == old(symbolBuffer[..symbolBufferFill]) + old(upstream)[0]
      ensures Pending() == old(Pending())
    {
      var symbols := symbolBufferFill;
      if upstream == [] {
        return -1;
      }
      var batch := upstream[0];
      assert AllSymbols(batch);
      upstream := upstream[1..];
      var j := 0;
      while j < |batch|
        invariant 0 <= j <= |batch|
        invariant Valid()
        invariant symbolBuffer == old(symbolBuffer) || fresh(symbolBuffer)
        invariant upstream == old(upstream)[1..]
        invariant symbolBufferOff == old(symbolBufferOff) && symbolBufferFill == symbols + j
        invariant symbolBuffer[..symbolBufferFill] == old(symbolBuffer[..symbolBufferFill]) + batch[..j]
      {
        WriteSymbol(batch[j]);
        assert batch[..j + 1] == batch[..j] + [batch[j]];
        j := j + 1;
      }
      assert batch[..j] == batch;
      n := symbolBufferFill - symbols;
      PendingAfterBatch(old(symbolBuffer[..symbolBufferFill]), symbolBufferOff, old(upstream));
      assert symbolBuffer[symbolBufferOff..symbolBufferFill] == symbolBuffer[..symbolBufferFill][symbolBufferOff..];
      assert old(symbolBuffer[symbolBufferOff..symbolBufferFill]) == old(symbolBuffer[..symbolBufferFill])[symbolBufferOff..];
    }

    /**
     * `bufferMaintenance`: compact the buffer when fewer than
     * LONGEST_CHARACTER + 2 places are left after the offset, then read
     * until that many symbols are buffered or the audio stream ends.
     * False exactly when nothing is left to decode.
     */
    method BufferMaintenance() returns (ok: bool)
      requires Valid()
      modifies this, symbolBuffer
      ensures Valid()
      ensures symbolBuffer == old(symbolBuffer) || fresh(symbolBuffer)
      ensures Pending() == old(Pending())
      ensures ok <==> symbolBufferOff < symbolBufferFill
      ensures !ok ==> upstream == []
      ensures symbolBufferFill - symbolBufferOff < longestCharacter + 2 ==> upstream == []
    {
      if symbolBuffer.Length - symbolBufferOff < longestCharacter + 2 {
        CompactSymbolBuffer();
      }
      while symbolBufferFill - symbolBufferOff < longestCharacter + 2
        invariant Valid()
        invariant symbolBuffer == old(symbolBuffer) || fresh(symbolBuffer)
        invariant Pending() == old(Pending())
        decreases |upstream|
      {
        var n := GetSymbols();
        if n == -1 {
          if symbolBufferFill - symbolBufferOff < 1 {
            return false;
          } else {
            return true;
          }
        }
      }
      return true;
    }

    /** `symbolBufferOff += n`: consume n buffered symbols. */
    method Consume(n: nat)
      requires Valid() && symbolBufferOff + n <= symbolBufferFill
      modifies this
      ensures Valid()
      ensures symbolBuffer == old(symbolBuffer) && symbolBufferFill == old(symbolBufferFill) && upstream == old(upstream)
      ensures symbolBufferOff == old(symbolBufferOff) + n
      ensures Pending() == old(Pending())[n..]
    {
      ghost var after := symbolBuffer[symbolBufferOff + n..symbolBufferFill];
      assert old(Pending())[n..] == after + Flatten(upstream);
      symbolBufferOff := symbolBufferOff + n;
      assert symbolBuffer[symbolBufferOff..symbolBufferFill] == after;
    }

    /**
     * `read()`: refill the buffer and return -1 when nothing is left;
     * otherwise match, and try again after a skipped symbol. The character
     * and the symbols left are those `NextChar` gives for the pending
     * symbols.
     */
    method Read() returns (c: int)
      requires Valid() && TreeBuilt()
      modifies this, symbolBuffer
      ensures Valid()
      ensures symbolBuffer == old(symbolBuffer) || fresh(symbolBuffer)
      ensures (c, Pending()) == NextChar(charset, old(Pending()))
      ensures c == -1 ==> upstream == [] && symbolBufferOff == symbolBufferFill
    {
      ghost var start := Pending();
      while true
        invariant Valid()
        invariant symbolBuffer == old(symbolBuffer) || fresh(symbolBuffer)
        invariant NextChar(charset, Pending()) == NextChar(charset, start)
        decreases |Pending()|
      {
        var ok := BufferMaintenance();
        if !ok {
          assert Pending() == [];
          return -1;
        }
        FlattenSymbols(upstream);
        var skip;
        c, skip := MatchAt(charsetTree, symbolBuffer, symbolBufferOff, symbolBufferFill, charset, Flatten(upstream), Pending());
        Consume(skip);
        if c != -1 {
          return c;
        }
      }
    }

    /**
     * `read(b, off, len)`: call `read()` for b[off], b[off + 1], ... until
     * len characters are stored or `read()` returns -1. The result is the
     * number stored, or -1 when len > 0 and the first `read()` gave -1.
     * Exactly the characters `ReadChars` gives are stored, nothing else
     * of b changes, and the symbols left are those after them.
     */
    method ReadInto(b: array<Byte>, off: nat, len: nat) returns (n: int)
      requires Valid() && TreeBuilt() && off + len <= b.Length && b as object != symbolBuffer
      modifies this, symbolBuffer, b
      ensures Valid()
      ensures symbolBuffer == old(symbolBuffer) || fresh(symbolBuffer)
      ensures var r := ReadChars(charset, old(Pending()), len);
        && Pending() == r.1
        && Stored(b, off, off + |r.0|, r.0, old(b[..]))
        && n == if len > 0 && r.0 == [] then -1 else |r.0|
    {
      ghost var start := Pending();
      ghost var before := b[..];
      ghost var chars: seq<int> := [];
      ghost var k := 0;
      var i := off;
      while i < off + len
        invariant off <= i <= off + len && k == i - off && |chars| == k
        invariant Valid()
        invariant symbolBuffer == old(symbolBuffer) || fresh(symbolBuffer)
        invariant b as object != symbolBuffer
        invariant ReadChars(charset, start, k) == (chars, Pending())
        invariant Stored(b, off, i, chars, before)
      {
        ghost var left := Pending();
        var d := ReadStore(b, off, i, chars, before);
        ReadCharsNext(charset, start, k, chars, left, d, Pending());
        if d == -1 {
          ReadCharsStops(charset, start, k + 1, len);
          return if i - off == 0 then -1 else i - off;
        }
        chars := chars + [d];
        k := k + 1;
        i := i + 1;
      }
      return len;
    }

    /**
     * One pass of the loop of `read(b, off, len)`: `read()` a character
     * and, unless it is -1, store it at b[i] after the characters stored
     * so far.
     */
    method ReadStore(b: array<Byte>, off: nat, i: nat, ghost chars: seq<int>, ghost before: seq<Byte>) returns (d: int)
      requires Valid() && TreeBuilt() && off <= i < b.Length && b as object != symbolBuffer
      requires Stored(b, off, i, chars, before)
      modifies this, symbolBuffer, b
      ensures Valid()
      ensures symbolBuffer == old(symbolBuffer) || fresh(symbolBuffer)
      ensures (d, Pending()) == NextChar(charset, old(Pending()))
      ensures d == -1 ==> Stored(b, off, i, chars, before)
      ensures d != -1 ==> Stored(b, off, i + 1, chars + [d], before)
    {
      d := Read();
      if d != -1 {
        b[i] := ToByte(d);
      }
    }

    /** `read(b)`: `read(b, 0, b.length)`. */
    method ReadArray(b: array<Byte>) returns (n: int)
      requires Valid() && TreeBuilt() && b as object != symbolBuffer
      modifies this, symbolBuffer, b
      ensures Valid()
      ensures symbolBuffer == old(symbolBuffer) || fresh(symbolBuffer)
      ensures var r := ReadChars(charset, old(Pending()), b.Length);
        && Pending() == r.1
        && Stored(b, 0, |r.0|, r.0, old(b[..]))
        && n == if b.Length > 0 && r.0 == [] then -1 else |r.0|
    {
      n := ReadInto(b, 0, b.Length);
    }
  }

  /**
   * The branches of `read()` after `findChar`, on the buffered symbols
   * path[off..fill] followed by the symbols `rest` still upstream (all
   * of them together: s). When the match is a character followed by two
   * 0s, it is returned together with the number of symbols it spans;
   * otherwise (the root, a node without a character, a character without
   * its two 0s) the result is -1 and one symbol to skip. Either way what
   * is left has the same next character to come, or starts with it.
   */
  method MatchAt(t: Tree, path: array<int>, off: nat, fill: nat, ghost table: seq<Option<seq<int>>>,
                 ghost rest: seq<int>, ghost s: seq<int>) returns (c: int, skip: nat)
    requires ValidTable(table) && t == CharsetTreeOf(table)
    requires off < fill <= path.Length && s == path[off..fill] + rest
    requires AllSymbols(s) && (fill - off >= MaxCodeLength + 2 || rest == [])
    ensures 0 < skip <= fill - off && AllSymbols(s[skip..])
    ensures c != -1 ==> NextChar(table, s) == (c, s[skip..])
    ensures c == -1 ==> NextChar(table, s[skip..]) == NextChar(table, s)
  {
    var len := fill - off;
    ghost var w := path[off..off + len];
    assert s == w + rest;
    assert AllSymbols(w) && AllSymbols(rest) by {
      assert forall i :: 0 <= i < |w| ==> w[i] == s[i];
      assert forall i :: 0 <= i < |rest| ==> rest[i] == s[|w| + i];
    }
    var found := FindChar(t, path, off, len);
    assert found.Success? && found.value.Node? && 0 <= found.value.depth <= len by {
      FindMatchLongest(table, w);
    }
    var ct := found.value;
    if ct != t && ct.c != NoChar && ct.depth + 2 <= len && path[off + ct.depth] == 0 && path[off + ct.depth + 1] == 0 {
      assert Separated(w, ct.depth);
      assert s[ct.depth + 2..] == w[ct.depth + 2..] + rest;
      assert NextChar(table, w + rest) == (ct.c, w[ct.depth + 2..] + rest) by {
        ReadStep(table, t, w, rest);
      }
      return ct.c, ct.depth + 2;
    }
    assert ct != t && ct.c != NoChar ==> !Separated(w, ct.depth);
    assert s[1..] == w[1..] + rest;
    assert NextChar(table, w + rest) == NextChar(table, w[1..] + rest) by {
      ReadStep(table, t, w, rest);
    }
    return -1, 1;
  }

  /**
   * What the loop of `read(b, off, n)` takes from the symbols s: up to n
   * characters, one `read()` after another, stopping at the first -1;
   * and the symbols left after them.
   */
  function ReadChars(table: seq<Option<seq<int>>>, s: seq<int>, n: nat): (r: (seq<int>, seq<int>))
    requires ValidTable(table) && AllSymbols(s)
    ensures |r.0| <= n && AllSymbols(r.1)
  {
    if n == 0 then ([], s)
    else
      var r := ReadChars(table, s, n - 1);
      if |r.0| < n - 1 then r
      else
        var next := NextChar(table, r.1);
        if next.0 == -1 then (r.0, next.1) else (r.0 + [next.0], next.1)
  }

  /**
   * The characters n reads return, followed by everything still to be
   * decoded from the symbols left, are everything decoded from s; and
   * when the reads stopped short, no symbols are left.
   */
  ghost predicate ReadsThenDecode(table: seq<Option<seq<int>>>, s: seq<int>, n: nat)
    requires ValidTable(table) && AllSymbols(s)
  {
    var r := ReadChars(table, s, n);
    && DecodeAll(table, s) == r.0 + DecodeAll(table, r.1)
    && (|r.0| < n ==> r.1 == [])
  }

  lemma {:induction false} ReadCharsDecodeAll(table: seq<Option<seq<int>>>, s: seq<int>, n: nat)
    requires ValidTable(table) && AllSymbols(s)
    ensures ReadsThenDecode(table, s, n)
  {
    if n == 0 {
      assert DecodeAll(table, s) == [] + DecodeAll(table, s);
    } else {
      ReadCharsDecodeAll(table, s, n - 1);
      ReadCharsDecodeStep(table, s, n);
    }
  }

  lemma ReadCharsDecodeStep(table: seq<Option<seq<int>>>, s: seq<int>, n: nat)
    requires ValidTable(table) && AllSymbols(s) && n > 0 && ReadsThenDecode(table, s, n - 1)
    ensures ReadsThenDecode(table, s, n)
  {
    var r := ReadChars(table, s, n - 1);
    if |r.0| == n - 1 {
      var next := NextChar(table, r.1);
      DecodeAllNext(table, r.1);
      if next.0 == -1 {
        assert ReadChars(table, s, n) == (r.0, []);
        assert DecodeAll(table, []) == [];
      } else {
        assert ReadChars(table, s, n) == (r.0 + [next.0], next.1);
        assert r.0 + ([next.0] + DecodeAll(table, next.1)) == (r.0 + [next.0]) + DecodeAll(table, next.1);
      }
    } else {
      assert ReadChars(table, s, n) == r;
    }
  }

  /** Reading |bytes| characters from what `write` made of bytes gives the bytes back. */
  lemma ReadCharsEncode(table: seq<Option<seq<int>>>, bytes: seq<int>)
    requires ValidTable(table)
    ensures ReadChars(table, Encode(table, bytes), |bytes|).0 == DecodedBytes(bytes)
  {
    var s := Encode(table, bytes);
    var r := ReadChars(table, s, |bytes|);
    var decoded := DecodedBytes(bytes);
    var later := DecodeAll(table, r.1);
    assert decoded == r.0 + later by {
      DecodeEncode(table, bytes);
      ReadCharsDecodeAll(table, s, |bytes|);
    }
    assert |r.0| < |bytes| ==> later == [] by {
      ReadCharsDecodeAll(table, s, |bytes|);
      assert DecodeAll(table, []) == [];
    }
    assert r.0 == decoded[..|r.0|];
  }

  /** One more `read()` after k characters were read without a -1. */
  lemma ReadCharsNext(table: seq<Option<seq<int>>>, s: seq<int>, k: nat, read: seq<int>, left: seq<int>, c: int, rest: seq<int>)
    requires ValidTable(table) && AllSymbols(s)
    requires ReadChars(table, s, k) == (read, left) && |read| == k
    requires NextChar(table, ReadChars(table, s, k).1) == (c, rest)
    ensures ReadChars(table, s, k + 1) == if c == -1 then (read, rest) else (read + [c], rest)
  {
  }

  /** After a short read every further `read()` returns -1: reading more changes nothing. */
  lemma {:induction false} ReadCharsStops(table: seq<Option<seq<int>>>, s: seq<int>, k: nat, m: nat)
    requires ValidTable(table) && AllSymbols(s) && k <= m && |ReadChars(table, s, k).0| < k
    ensures ReadChars(table, s, m) == ReadChars(table, s, k)
    decreases m
  {
    if k < m {
      ReadCharsStops(table, s, k, m - 1);
    }
  }

  /**
   * b holds the characters chars at off, off + 1, ..., i - 1, and the
   * values before elsewhere.
   */
  ghost predicate Stored(b: array<Byte>, off: nat, i: nat, chars: seq<int>, before: seq<Byte>)
    reads b
  {
    && off + |chars| == i <= b.Length == |before|
    && (forall j :: off <= j < i ==> b[j] == chars[j - off])
    && (forall j :: 0 <= j < b.Length && !(off <= j < i) ==> b[j] == before[j])
  }

  /** The two symbols after the first d of w are both 0. */
  predicate Separated(w: seq<int>, d: nat)
  {
    d + 2 <= |w| && w[d] == 0 && w[d + 1] == 0
  }

  /**
   * One pass of the loop in `read()` over a window w of buffered symbols
   * followed by the symbols f still upstream, where the window holds at
   * least LONGEST_CHARACTER + 2 symbols or nothing follows it: `findChar`
   * on the window never throws, and skipping one symbol, or returning the
   * matched character after its two 0s, leaves the same next character to
   * come as `NextChar` on all pending symbols.
   */
  lemma {:induction false} ReadStep(table: seq<Option<seq<int>>>, t: Tree, w: seq<int>, f: seq<int>)
    requires ValidTable(table) && t == CharsetTreeOf(table) && AllSymbols(w) && AllSymbols(f) && |w| > 0
    requires |w| >= MaxCodeLength + 2 || f == []
    ensures AllSymbols(w + f) && AllSymbols(w[1..] + f)
    ensures FindMatch(t, w).Success?
    ensures var n := FindMatch(t, w).value;
      && n.Node?
      && (n == t ==> NextChar(table, w + f) == NextChar(table, w[1..] + f))
      && (n != t ==> n.c != NoChar && n.depth > 0)
      && (n != t && Separated(w, n.depth) ==>
            AllSymbols(w[n.depth + 2..] + f) && NextChar(table, w + f) == (n.c, w[n.depth + 2..] + f))
      && (n != t && !Separated(w, n.depth) ==> NextChar(table, w + f) == NextChar(table, w[1..] + f))
  {
    AllSymbolsConcat(w, f);
    AllSymbolsConcat(w[1..], f);
    var s := w + f;
    assert s[1..] == w[1..] + f;
    FindMatchLongest(table, w);
    var d := FindMatch(CharsetTreeOf(table), w).value.depth;
    if f == [] {
      assert s == w;
    } else {
      assert s[..MaxCodeLength] == w[..MaxCodeLength];
      CodePrefixSame(table, w, s, MaxCodeLength);
    }
    assert MatchLength(table, s) == d;
    if d > 0 && Separated(w, d) {
      assert s[..d] == w[..d];
      assert s[d + 2..] == w[d + 2..] + f;
      AllSymbolsConcat(w[d + 2..], f);
    }
  }
}
