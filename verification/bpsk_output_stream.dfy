/**
 * `BpskOutputStream`: turns bytes into Varicode symbol arrays and hands
 * each array to the modulator. The model records the symbol arrays in the
 * order they are handed over; what the modulator makes of them is modelled
 * in `BpskGenerators`.
 */
module BpskOutputStreams {
  import opened JavaTypes
  import opened Varicode
  import opened CharsetTrees
  import opened VaricodeStream

  /** `preamble()`: 35 phase reversals, no character. */
  const Preamble: seq<int> := seq(35, _ => 0)

  /** `postamble()`: a separator, then ten 1s (an idle carrier). */
  const Postamble: seq<int> := [0, 0] + Idle

  /** The ten 1s of the postamble. */
  const Idle: seq<int> := [1, 1, 1, 1, 1, 1, 1, 1, 1, 1]

  class BpskOutputStream {
    /** `CHARSET`. */
    const charset: seq<Option<seq<int>>>

    /** The symbol arrays handed to `psk.generateSignal`, in order. */
    var signals: seq<seq<int>>

    constructor ()
      ensures charset == Charset() && ValidTable(charset)
      ensures signals == []
    {
      CharsetValid();
      charset := Charset();
      signals := [];
    }

    /** `write(int)`: the codeword of b, then the separator, as two separate arrays. */
    method WriteInt(b: int)
      requires ValidTable(charset)
      modifies this
      ensures signals == old(signals) + [PskData(charset, b), Separator]
    {
      signals := signals + [PskData(charset, b)];
      signals := signals + [Separator];
    }

    /**
     * `write(b, off, len)`: size the array, fill it with codeword and
     * separator for each byte in turn, and hand it over in one piece.
     */
    method WriteArray(b: array<Byte>, off: nat, len: nat)
      requires ValidTable(charset) && off + len <= b.Length
      modifies this
      ensures signals == old(signals) + [Encode(charset, b[off..off + len])]
    {
      var size := SymbolCount(charset, b[off..off + len]);
      var symbols := FillSymbols(charset, b[off..off + len], size);
      signals := signals + [symbols[..]];
    }

    /** `write(b)`: the whole array. */
    method WriteAll(b: array<Byte>)
      requires ValidTable(charset)
      modifies this
      ensures signals == old(signals) + [Encode(charset, b[..])]
    {
      WriteArray(b, 0, b.Length);
      assert b[0..b.Length] == b[..];
    }

    /** `preamble()`. */
    method SendPreamble()
      modifies this
      ensures signals == old(signals) + [Preamble]
    {
      signals := signals + [Preamble];
    }

    /** `postamble()`. */
    method SendPostamble()
      modifies this
      ensures signals == old(signals) + [Postamble]
    {
      signals := signals + [Postamble];
    }
  }

  /** The first loop of `write(b, off, len)`: the length of the symbol array, codeword plus separator per byte. */
  method SymbolCount(table: seq<Option<seq<int>>>, bytes: seq<int>) returns (size: nat)
    requires ValidTable(table)
    ensures size == |Encode(table, bytes)|
  {
    size := 0;
    var i := 0;
    while i < |bytes|
      invariant i <= |bytes|
      invariant size == EncodedSize(table, bytes[..i])
    {
      SizeStep(table, bytes, i);
      size := size + |PskData(table, bytes[i])| + |Separator|;
      i := i + 1;
    }
    assert bytes[..i] == bytes;
    EncodeSize(table, bytes);
  }

  /** The size sum over one more byte of bytes. */
  lemma SizeStep(table: seq<Option<seq<int>>>, bytes: seq<int>, k: nat)
    requires ValidTable(table) && k < |bytes|
    ensures EncodedSize(table, bytes[..k + 1]) == EncodedSize(table, bytes[..k]) + |PskData(table, bytes[k])| + |Separator|
  {
    assert bytes[..k + 1] == bytes[..k] + [bytes[k]];
    EncodedSizeSnoc(table, bytes[..k], bytes[k]);
  }

  /** The second loop of `write(b, off, len)`: a new array of size symbols, filled with the encoding of the bytes. */
  method FillSymbols(table: seq<Option<seq<int>>>, bytes: seq<int>, size: nat) returns (symbols: array<int>)
    requires ValidTable(table) && size == |Encode(table, bytes)|
    ensures fresh(symbols)
    ensures symbols[..] == Encode(table, bytes)
  {
    symbols := new int[size];
    var symI: nat := 0;
    var i := 0;
    while i < |bytes|
      invariant i <= |bytes|
      invariant symI <= symbols.Length
      invariant symbols[..symI] == Encode(table, bytes[..i])
      invariant symI + |Encode(table, bytes[i..])| == symbols.Length
    {
      var symbol := PskData(table, bytes[i]);
      FillStep(table, bytes, i);
      symI := AppendSymbols(symbols, symI, symbol);
      symI := AppendSymbols(symbols, symI, Separator);
      i := i + 1;
    }
    assert bytes[..i] == bytes;
    assert symbols[..] == symbols[..symI];
  }

  /** How the encoding splits when the byte at k moves from the rest to the prefix. */
  lemma FillStep(table: seq<Option<seq<int>>>, bytes: seq<int>, k: nat)
    requires ValidTable(table) && k < |bytes|
    ensures Encode(table, bytes[..k + 1]) == Encode(table, bytes[..k]) + PskData(table, bytes[k]) + Separator
    ensures |Encode(table, bytes[k..])| == |PskData(table, bytes[k])| + |Separator| + |Encode(table, bytes[k + 1..])|
  {
    assert bytes[..k + 1] == bytes[..k] + [bytes[k]];
    EncodeSnoc(table, bytes[..k], bytes[k]);
    assert bytes[k..][1..] == bytes[k + 1..];
  }

  /** One of the inner copy loops of `write(b, off, len)`: src goes into symbols from index i on. */
  method AppendSymbols(symbols: array<int>, i: nat, src: seq<int>) returns (next: nat)
    requires i + |src| <= symbols.Length
    modifies symbols
    ensures next == i + |src|
    ensures symbols[..next] == old(symbols[..i]) + src
  {
    next := i;
    for j := 0 to |src|
      invariant next == i + j
      invariant symbols[..next] == old(symbols[..i]) + src[..j]
    {
      symbols[next] := src[j];
      next := next + 1;
      assert src[..j + 1] == src[..j] + [src[j]];
    }
    assert src[..|src|] == src;
  }

  /** The size sum over one more byte. */
  lemma {:induction false} EncodedSizeSnoc(table: seq<Option<seq<int>>>, bytes: seq<int>, x: int)
    requires ValidTable(table)
    ensures EncodedSize(table, bytes + [x]) == EncodedSize(table, bytes) + |PskData(table, x)| + |Separator|
  {
    if |bytes| > 0 {
      assert (bytes + [x])[1..] == bytes[1..] + [x];
      EncodedSizeSnoc(table, bytes[1..], x);
    }
  }

  /** The encoding of one more byte is the old encoding, then its codeword and the separator. */
  lemma EncodeSnoc(table: seq<Option<seq<int>>>, bytes: seq<int>, x: int)
    requires ValidTable(table)
    ensures Encode(table, bytes + [x]) == Encode(table, bytes) + PskData(table, x) + Separator
  {
    EncodeAppend(table, bytes, [x]);
    assert Encode(table, [x]) == PskData(table, x) + Separator + Encode(table, []);
  }

  /** `write(int)` of a byte value sends the same symbols as `write(byte[])` of that byte. */
  lemma WriteIntAsArray(table: seq<Option<seq<int>>>, b: int)
    requires ValidTable(table)
    ensures PskData(table, b) + Separator == Encode(table, [b])
  {
    assert Encode(table, [b]) == PskData(table, b) + Separator + Encode(table, []);
  }

  /**
   * Java bytes are signed: the byte values 128..255 reach `getPskData` as
   * -128..-1 and go out as `NUL`'s codeword, and come back as `NUL`.
   */
  lemma SignedByteAsNul(table: seq<Option<seq<int>>>, v: int)
    requires ValidTable(table) && 0x80 <= v < 0x100
    ensures PskData(table, ToByte(v)) == table[0].value
    ensures Decoded(ToByte(v)) == 0
  {
    assert ToByte(v) == v - 0x100;
  }

  /** No codeword starts with 0: a leading 0 is dropped by `read()` without effect. */
  lemma ZeroSkip(table: seq<Option<seq<int>>>, s: seq<int>)
    requires ValidTable(table) && AllSymbols(s)
    ensures AllSymbols([0] + s)
    ensures NextChar(table, [0] + s) == NextChar(table, s)
    ensures DecodeAll(table, [0] + s) == DecodeAll(table, s)
  {
    var w := [0] + s;
    assert AllSymbols(w) by {
      assert AllSymbols([0]);
      AllSymbolsConcat([0], s);
    }
    var k := if |w| < MaxCodeLength then |w| else MaxCodeLength;
    forall j | 0 < j <= k
      ensures CharOf(table, |table|, w[..j]) == NoChar
    {
      assert w[..j][0] == 0;
      if CharOf(table, |table|, w[..j]) != NoChar {
        CodeChar(table, w[..j]);
        assert false;
      }
    }
    CodePrefixUnique(table, w, k, 0);
    assert w[1..] == s;
  }

  /** n zero symbols. */
  function Zeros(n: nat): (z: seq<int>)
    ensures |z| == n && forall k :: 0 <= k < n ==> z[k] == 0
  {
    if n == 0 then [] else [0] + Zeros(n - 1)
  }

  /** Any run of 0s in front of the symbols changes nothing that is decoded. */
  lemma {:induction false} ZerosInvisible(table: seq<Option<seq<int>>>, n: nat, s: seq<int>)
    requires ValidTable(table) && AllSymbols(s)
    ensures AllSymbols(Zeros(n) + s)
    ensures DecodeAll(table, Zeros(n) + s) == DecodeAll(table, s)
  {
    if n > 0 {
      ZerosInvisible(table, n - 1, s);
      var z := Zeros(n - 1) + s;
      assert Zeros(n) + s == [0] + z;
      ZeroSkip(table, z);
    } else {
      assert Zeros(n) + s == s;
    }
  }

  /** No two 0s in a row anywhere. */
  predicate NoSeparator(s: seq<int>)
  {
    forall k :: 0 <= k < |s| - 1 ==> s[k] != 0 || s[k + 1] != 0
  }

  /** Symbols that hold no separator never yield a character: `read()` drops them all and returns -1. */
  lemma {:induction false} NoSeparatorSilent(table: seq<Option<seq<int>>>, s: seq<int>)
    requires ValidTable(table) && AllSymbols(s) && NoSeparator(s)
    ensures NextChar(table, s) == (-1, [])
    decreases |s|
  {
    if |s| > 0 {
      var d := MatchLength(table, s);
      assert !(d > 0 && d + 2 <= |s| && s[d] == 0 && s[d + 1] == 0);
      assert AllSymbols(s[1..]);
      NoSeparatorSilent(table, s[1..]);
    }
  }

  /** The preamble decodes to nothing and leaves the decoding of what follows as it is. */
  lemma PreambleInvisible(table: seq<Option<seq<int>>>, s: seq<int>)
    requires ValidTable(table) && AllSymbols(s)
    ensures AllSymbols(Preamble + s)
    ensures DecodeAll(table, Preamble + s) == DecodeAll(table, s)
  {
    ZerosInvisible(table, 35, s);
    assert Zeros(35) == Preamble;
  }

  /** The postamble decodes to nothing. */
  lemma PostambleSilent(table: seq<Option<seq<int>>>)
    requires ValidTable(table)
    ensures AllSymbols(Postamble)
    ensures DecodeAll(table, Postamble) == []
  {
    var ones := Idle;
    assert AllSymbols(ones) && NoSeparator(ones);
    assert DecodeAll(table, ones) == [] by {
      NoSeparatorSilent(table, ones);
    }
    ZeroSkip(table, ones);
    ZeroSkip(table, [0] + ones);
    assert [0, 0] == [0] + [0];
    ConsAppend(0, [0], ones);
  }

  /**
   * A whole transmission, preamble, the symbols `write` makes of the
   * bytes, postamble, decodes to the bytes: 0..127 as themselves, any
   * other byte as `NUL`.
   */
  lemma FrameDecodes(table: seq<Option<seq<int>>>, bytes: seq<int>)
    requires ValidTable(table)
    ensures AllSymbols(Preamble + Encode(table, bytes) + Postamble)
    ensures DecodeAll(table, Preamble + Encode(table, bytes) + Postamble) == DecodedBytes(bytes)
  {
    var body := Encode(table, bytes) + Postamble;
    PostambleSilent(table);
    DecodeEncodeThen(table, bytes, Postamble);
    assert DecodeAll(table, body) == DecodedBytes(bytes);
    PreambleInvisible(table, body);
    assert Preamble + Encode(table, bytes) + Postamble == Preamble + body;
  }
}
