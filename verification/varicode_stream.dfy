/**
 * The Varicode symbol stream: what `BpskOutputStream.write` hands to the
 * modulator for a run of bytes, and what `BpskInputStream.read` makes of
 * a stream of symbols. Both sides use the same table.
 */
module VaricodeStream {
  import opened JavaTypes
  import opened Varicode
  import opened CharsetTrees

  /** `CHARACTER_SEPARATOR`: the two 0 symbols that end every character. */
  const Separator: seq<int> := [0, 0]

  /** The symbols written for bytes: each byte's codeword followed by the separator, in order. */
  function Encode(table: seq<Option<seq<int>>>, bytes: seq<int>): (s: seq<int>)
    requires ValidTable(table)
    ensures AllSymbols(s)
  {
    if |bytes| == 0 then []
    else
      var code := PskData(table, bytes[0]);
      assert AllSymbols(code + Separator);
      code + Separator + Encode(table, bytes[1..])
  }

  /** The number of symbols `write(b, off, len)` allocates: the sum of codeword length plus two. */
  function EncodedSize(table: seq<Option<seq<int>>>, bytes: seq<int>): nat
    requires ValidTable(table)
  {
    if |bytes| == 0 then 0 else |PskData(table, bytes[0])| + |Separator| + EncodedSize(table, bytes[1..])
  }

  lemma {:induction false} EncodeSize(table: seq<Option<seq<int>>>, bytes: seq<int>)
    requires ValidTable(table)
    ensures |Encode(table, bytes)| == EncodedSize(table, bytes)
  {
    if |bytes| > 0 {
      EncodeSize(table, bytes[1..]);
    }
  }

  /** Encoding a concatenation concatenates the encodings. */
  lemma {:induction false} EncodeAppend(table: seq<Option<seq<int>>>, xs: seq<int>, ys: seq<int>)
    requires ValidTable(table)
    ensures Encode(table, xs + ys) == Encode(table, xs) + Encode(table, ys)
  {
    if |xs| == 0 {
      assert xs + ys == ys;
    } else {
      assert (xs + ys)[1..] == xs[1..] + ys;
      EncodeAppend(table, xs[1..], ys);
    }
  }

  /** The character a byte comes back as: itself when the table defines it, `NUL` otherwise. */
  function Decoded(b: int): int
  {
    if 0 <= b < DefinedChars then b else 0
  }

  /**
   * The length of the longest prefix of s, of at most k symbols, that is
   * the codeword of a character of the table; 0 when none is.
   */
  function CodePrefix(table: seq<Option<seq<int>>>, s: seq<int>, k: nat): (d: nat)
    requires k <= |s|
    ensures d <= k
    ensures d > 0 ==> CharOf(table, |table|, s[..d]) != NoChar
    ensures forall j :: d < j <= k ==> CharOf(table, |table|, s[..j]) == NoChar
  {
    if k == 0 then 0
    else if CharOf(table, |table|, s[..k]) != NoChar then k
    else CodePrefix(table, s, k - 1)
  }

  /** Only the first k symbols count. */
  lemma {:induction false} CodePrefixSame(table: seq<Option<seq<int>>>, s: seq<int>, s': seq<int>, k: nat)
    requires k <= |s| && k <= |s'| && s[..k] == s'[..k]
    ensures CodePrefix(table, s, k) == CodePrefix(table, s', k)
  {
    if k > 0 {
      assert s[..k - 1] == s[..k][..k - 1] && s'[..k - 1] == s'[..k][..k - 1];
      CodePrefixSame(table, s, s', k - 1);
    }
  }

  /** Any d that is the longest codeword prefix of at most k symbols is the one `CodePrefix` gives. */
  lemma {:induction false} CodePrefixUnique(table: seq<Option<seq<int>>>, s: seq<int>, k: nat, d: nat)
    requires d <= k <= |s|
    requires d > 0 ==> CharOf(table, |table|, s[..d]) != NoChar
    requires forall j :: d < j <= k ==> CharOf(table, |table|, s[..j]) == NoChar
    ensures CodePrefix(table, s, k) == d
  {
    if k > d {
      CodePrefixUnique(table, s, k - 1, d);
    }
  }

  /**
   * How many symbols of s the character `read()` looks at spans: the
   * longest prefix of s that is a codeword, codewords being at most ten
   * symbols long.
   */
  function MatchLength(table: seq<Option<seq<int>>>, s: seq<int>): nat
  {
    CodePrefix(table, s, if |s| < MaxCodeLength then |s| else MaxCodeLength)
  }

  /**
   * `findChar` from the root of the trie of a valid table never throws on
   * symbols, and walks exactly the longest codeword prefix: it returns the
   * root when there is none, and otherwise the node of the character whose
   * codeword that prefix is.
   */
  lemma FindMatchLongest(table: seq<Option<seq<int>>>, s: seq<int>)
    requires ValidTable(table) && AllSymbols(s)
    ensures FindMatch(CharsetTreeOf(table), s).Success?
    ensures var n := FindMatch(CharsetTreeOf(table), s).value;
      && n.Node? && n.depth == MatchLength(table, s)
      && (n.depth == 0 <==> n == CharsetTreeOf(table))
      && (n.depth > 0 ==> n.c == CharOf(table, |table|, s[..n.depth]) && 0 <= n.c < DefinedChars)
  {
    var t := CharsetTreeOf(table);
    FindMatchDeepest(t, s);
    var n := FindMatch(t, s).value;
    WalkDepth(t, 0, s[..n.depth]);
    TreeNodeOnCodeword(table, s[..n.depth]);
    var k := if |s| < MaxCodeLength then |s| else MaxCodeLength;
    CharsetTreeContents(table);
    CodePrefixUnique(table, s, k, n.depth);
  }

  /** The character of a codeword of a valid table is one of the defined ones. */
  lemma CodeChar(table: seq<Option<seq<int>>>, q: seq<int>)
    requires ValidTable(table) && CharOf(table, |table|, q) != NoChar
    ensures 0 <= CharOf(table, |table|, q) < DefinedChars
    ensures table[CharOf(table, |table|, q)] == Some(q)
  {
    CharOfSlot(table, |table|, q);
  }

  /**
   * The character `read()` returns from the symbols s still to come, and
   * the symbols left after it: take the longest codeword prefix; if it is
   * followed by two 0s, consume all of them and return its character,
   * otherwise drop one symbol and try again; -1 once no symbols are left.
   */
  function NextChar(table: seq<Option<seq<int>>>, s: seq<int>): (r: (int, seq<int>))
    requires ValidTable(table) && AllSymbols(s)
    ensures |r.1| <= |s| && AllSymbols(r.1)
    ensures r.0 == -1 ==> r.1 == []
    ensures r.0 != -1 ==> 0 <= r.0 < DefinedChars && |r.1| < |s|
    decreases |s|
  {
    if |s| == 0 then (-1, [])
    else
      var d := MatchLength(table, s);
      if d > 0 && d + 2 <= |s| && s[d] == 0 && s[d + 1] == 0 then
        CodeChar(table, s[..d]);
        (CharOf(table, |table|, s[..d]), s[d + 2..])
      else
        assert AllSymbols(s[1..]);
        var r := NextChar(table, s[1..]);
        r
  }

  /** All the characters `read()` returns, one after another, until it returns -1. */
  function DecodeAll(table: seq<Option<seq<int>>>, s: seq<int>): seq<int>
    requires ValidTable(table) && AllSymbols(s)
    decreases |s|
  {
    var r := NextChar(table, s);
    if r.0 == -1 then [] else [r.0] + DecodeAll(table, r.1)
  }

  /**
   * The first character of a codeword followed by the separator is the
   * character of its byte, and what is left is what followed the separator.
   */
  lemma NextCharCode(table: seq<Option<seq<int>>>, b: int, rest: seq<int>)
    requires ValidTable(table) && AllSymbols(rest)
    ensures AllSymbols(PskData(table, b) + Separator + rest)
    ensures NextChar(table, PskData(table, b) + Separator + rest) == (Decoded(b), rest)
  {
    var code := PskData(table, b);
    var s := code + Separator + rest;
    assert AllSymbols(s) by {
      AllSymbolsConcat(code + Separator, rest);
    }
    var c := Decoded(b);
    assert table[c] == Some(code);
    assert code <= s;
    FindCodeword(table, c, s);
    FindMatchLongest(table, s);
    assert MatchLength(table, s) == |code|;
    assert s[|code| + 2..] == rest;
  }

  /** Unfolding `DecodeAll` once, when a character comes out. */
  lemma DecodeAllStep(table: seq<Option<seq<int>>>, s: seq<int>, c: int, rest: seq<int>)
    requires ValidTable(table) && AllSymbols(s) && AllSymbols(rest)
    requires NextChar(table, s) == (c, rest) && c != -1
    ensures DecodeAll(table, s) == [c] + DecodeAll(table, rest)
  {
  }

  /** Decoding is one `read()` followed by decoding what is left; a -1 leaves nothing. */
  lemma DecodeAllNext(table: seq<Option<seq<int>>>, s: seq<int>)
    requires ValidTable(table) && AllSymbols(s)
    ensures var next := NextChar(table, s);
      && (next.0 == -1 ==> next.1 == [] && DecodeAll(table, s) == [])
      && (next.0 != -1 ==> DecodeAll(table, s) == [next.0] + DecodeAll(table, next.1))
  {
  }

  /** The bytes as they come back, in order. */
  function DecodedBytes(bytes: seq<int>): seq<int>
  {
    seq(|bytes|, i requires 0 <= i < |bytes| => Decoded(bytes[i]))
  }

  lemma DecodedBytesCons(bytes: seq<int>)
    requires |bytes| > 0
    ensures DecodedBytes(bytes) == [Decoded(bytes[0])] + DecodedBytes(bytes[1..])
  {
    var whole := DecodedBytes(bytes);
    var tail := DecodedBytes(bytes[1..]);
    forall i | 0 <= i < |bytes| ensures whole[i] == ([Decoded(bytes[0])] + tail)[i] {
      if i > 0 {
        assert bytes[1..][i - 1] == bytes[i];
      }
    }
  }

  /**
   * Decoding what `write` produces for some bytes, followed by any other
   * symbols, gives every byte back (the bytes 0..127 as themselves, any
   * other byte as `NUL`), then what the other symbols decode to.
   */
  lemma {:induction false} DecodeEncodeThen(table: seq<Option<seq<int>>>, bytes: seq<int>, rest: seq<int>)
    requires ValidTable(table) && AllSymbols(rest)
    ensures AllSymbols(Encode(table, bytes) + rest)
    ensures DecodeAll(table, Encode(table, bytes) + rest) == DecodedBytes(bytes) + DecodeAll(table, rest)
  {
    if |bytes| == 0 {
      assert Encode(table, bytes) + rest == rest;
    } else {
      DecodeEncodeThen(table, bytes[1..], rest);
      DecodeEncodeStep(table, bytes, rest);
    }
  }

  /** The step of `DecodeEncodeThen`: one more byte in front. */
  lemma DecodeEncodeStep(table: seq<Option<seq<int>>>, bytes: seq<int>, rest: seq<int>)
    requires ValidTable(table) && AllSymbols(rest) && |bytes| > 0
    requires AllSymbols(Encode(table, bytes[1..]) + rest)
    requires DecodeAll(table, Encode(table, bytes[1..]) + rest) == DecodedBytes(bytes[1..]) + DecodeAll(table, rest)
    ensures AllSymbols(Encode(table, bytes) + rest)
    ensures DecodeAll(table, Encode(table, bytes) + rest) == DecodedBytes(bytes) + DecodeAll(table, rest)
  {
    var later := Encode(table, bytes[1..]) + rest;
    EncodeThenCons(table, bytes, rest);
    DecodeCodeThen(table, bytes[0], later);
    DecodedBytesCons(bytes);
    ConsAppend(Decoded(bytes[0]), DecodedBytes(bytes[1..]), DecodeAll(table, rest));
  }

  /** The encoding of bytes, then rest: the first codeword, the separator, then the encoding of the others and rest. */
  lemma EncodeThenCons(table: seq<Option<seq<int>>>, bytes: seq<int>, rest: seq<int>)
    requires ValidTable(table) && |bytes| > 0
    ensures Encode(table, bytes) + rest == PskData(table, bytes[0]) + Separator + (Encode(table, bytes[1..]) + rest)
  {
  }

  /** Decoding a codeword and separator in front of any symbols gives that character first. */
  lemma DecodeCodeThen(table: seq<Option<seq<int>>>, b: int, rest: seq<int>)
    requires ValidTable(table) && AllSymbols(rest)
    ensures AllSymbols(PskData(table, b) + Separator + rest)
    ensures DecodeAll(table, PskData(table, b) + Separator + rest) == [Decoded(b)] + DecodeAll(table, rest)
  {
    NextCharCode(table, b, rest);
    DecodeAllStep(table, PskData(table, b) + Separator + rest, Decoded(b), rest);
  }

  lemma ConsAppend(c: int, xs: seq<int>, ys: seq<int>)
    ensures ([c] + xs) + ys == [c] + (xs + ys)
  {
  }

  /**
   * Decoding what `write` produces gives every byte back: the bytes 0..127
   * as themselves, any other byte as `NUL`.
   */
  lemma DecodeEncode(table: seq<Option<seq<int>>>, bytes: seq<int>)
    requires ValidTable(table)
    ensures DecodeAll(table, Encode(table, bytes)) == DecodedBytes(bytes)
  {
    DecodeEncodeThen(table, bytes, []);
    assert Encode(table, bytes) + [] == Encode(table, bytes);
    assert NextChar(table, []) == (-1, []);
  }
}
