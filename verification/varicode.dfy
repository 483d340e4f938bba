/**
 * The Varicode alphabet of PSK31 as the `CHARSET` table of
 * BpskOutputStream holds it, and the three table facts that make the
 * symbol stream decodable: every codeword is made of 1 to 10 symbols that
 * begin and end with 1, no codeword holds two adjacent 0 symbols, and no
 * two characters share a codeword.
 */
module Varicode {
  import opened JavaTypes

  /** `LONGEST_CHARACTER`: the length of the longest codeword. */
  const MaxCodeLength: nat := 10

  /** The number of slots of `CHARSET`, one per unsigned byte value. */
  const CharsetSize: nat := 256

  /** The number of slots of `CHARSET` that hold a codeword (0 to 127). */
  const DefinedChars: nat := 128

  /*
   * The table as written. Each row gives the codewords of eight consecutive
   * characters; a codeword is written as the binary number its symbols
   * spell, the first symbol being the most significant digit.
   */

  function CharsetRow0(c: int): bv16
  {
    match c
    case 0 => 0x2AB // 1010101011 NUL
    case 1 => 0x2DB // 1011011011 SOH
    case 2 => 0x2ED // 1011101101 STX
    case 3 => 0x377 // 1101110111 ETX
    case 4 => 0x2EB // 1011101011 EOT
    case 5 => 0x35F // 1101011111 ENQ
    case 6 => 0x2EF // 1011101111 ACK
    case 7 => 0x2FD // 1011111101 BEL
    case _ => 0
  }

  function CharsetRow1(c: int): bv16
  {
    match c
    case 8 => 0x2FF // 1011111111 BS
    case 9 => 0x0EF // 11101111   HT
    case 10 => 0x01D // 11101      LF
    case 11 => 0x36F // 1101101111 VT
    case 12 => 0x2DD // 1011011101 FF
    case 13 => 0x01F // 11111      CR
    case 14 => 0x375 // 1101110101 SO
    case 15 => 0x3AB // 1110101011 SI
    case _ => 0
  }

  function CharsetRow2(c: int): bv16
  {
    match c
    case 16 => 0x2F7 // 1011110111 DLE
    case 17 => 0x2F5 // 1011110101 DC1
    case 18 => 0x3AD // 1110101101 DC2
    case 19 => 0x3AF // 1110101111 DC3
    case 20 => 0x35B // 1101011011 DC4
    case 21 => 0x36B // 1101101011 NAK
    case 22 => 0x36D // 1101101101 SYN
    case 23 => 0x357 // 1101010111 ETB
    case _ => 0
  }

  function CharsetRow3(c: int): bv16
  {
    match c
    case 24 => 0x37B // 1101111011 CAN
    case 25 => 0x37D // 1101111101 EM
    case 26 => 0x3B7 // 1110110111 SUB
    case 27 => 0x355 // 1101010101 ESC
    case 28 => 0x35D // 1101011101 FS
    case 29 => 0x3BB // 1110111011 GS
    case 30 => 0x2FB // 1011111011 RS
    case 31 => 0x37F // 1101111111 US
    case _ => 0
  }

  function CharsetRow4(c: int): bv16
  {
    match c
    case 32 => 0x001 // 1          space
    case 33 => 0x1FF // 111111111  '!'
    case 34 => 0x15F // 101011111  '"'
    case 35 => 0x1F5 // 111110101  '#'
    case 36 => 0x1DB // 111011011  '$'
    case 37 => 0x2D5 // 1011010101 '%'
    case 38 => 0x2BB // 1010111011 '&'
    case 39 => 0x17F // 101111111  '''
    case _ => 0
  }

  function CharsetRow5(c: int): bv16
  {
    match c
    case 40 => 0x0FB // 11111011   '('
    case 41 => 0x0F7 // 11110111   ')'
    case 42 => 0x16F // 101101111  '*'
    case 43 => 0x1DF // 111011111  '+'
    case 44 => 0x075 // 1110101    ','
    case 45 => 0x035 // 110101     '-'
    case 46 => 0x057 // 1010111    '.'
    case 47 => 0x1AF // 110101111  '/'
    case _ => 0
  }

  function CharsetRow6(c: int): bv16
  {
    match c
    case 48 => 0x0B7 // 10110111   '0'
    case 49 => 0x0BD // 10111101   '1'
    case 50 => 0x0ED // 11101101   '2'
    case 51 => 0x0FF // 11111111   '3'
    case 52 => 0x177 // 101110111  '4'
    case 53 => 0x15B // 101011011  '5'
    case 54 => 0x16B // 101101011  '6'
    case 55 => 0x1AD // 110101101  '7'
    case _ => 0
  }

  function CharsetRow7(c: int): bv16
  {
    match c
    case 56 => 0x1AB // 110101011  '8'
    case 57 => 0x1B7 // 110110111  '9'
    case 58 => 0x0F5 // 11110101   ':'
    case 59 => 0x1BD // 110111101  ';'
    case 60 => 0x1ED // 111101101  '<'
    case 61 => 0x055 // 1010101    '='
    case 62 => 0x1D7 // 111010111  '>'
    case 63 => 0x2AF // 1010101111 '?'
    case _ => 0
  }

  function CharsetRow8(c: int): bv16
  {
    match c
    case 64 => 0x2BD // 1010111101 '@'
    case 65 => 0x07D // 1111101    'A'
    case 66 => 0x0EB // 11101011   'B'
    case 67 => 0x0AD // 10101101   'C'
    case 68 => 0x0B5 // 10110101   'D'
    case 69 => 0x077 // 1110111    'E'
    case 70 => 0x0DB // 11011011   'F'
    case 71 => 0x0FD // 11111101   'G'
    case _ => 0
  }

  function CharsetRow9(c: int): bv16
  {
    match c
    case 72 => 0x155 // 101010101  'H'
    case 73 => 0x07F // 1111111    'I'
    case 74 => 0x1FD // 111111101  'J'
    case 75 => 0x17D // 101111101  'K'
    case 76 => 0x0D7 // 11010111   'L'
    case 77 => 0x0BB // 10111011   'M'
    case 78 => 0x0DD // 11011101   'N'
    case 79 => 0x0AB // 10101011   'O'
    case _ => 0
  }

  function CharsetRow10(c: int): bv16
  {
    match c
    case 80 => 0x0D5 // 11010101   'P'
    case 81 => 0x1DD // 111011101  'Q'
    case 82 => 0x0AF // 10101111   'R'
    case 83 => 0x06F // 1101111    'S'
    case 84 => 0x06D // 1101101    'T'
    case 85 => 0x157 // 101010111  'U'
    case 86 => 0x1B5 // 110110101  'V'
    case 87 => 0x15D // 101011101  'W'
    case _ => 0
  }

  function CharsetRow11(c: int): bv16
  {
    match c
    case 88 => 0x175 // 101110101  'X'
    case 89 => 0x17B // 101111011  'Y'
    case 90 => 0x2AD // 1010101101 'Z'
    case 91 => 0x1F7 // 111110111  '['
    case 92 => 0x1EF // 111101111  '\'
    case 93 => 0x3F7 // 1111110111 ']'
    case 94 => 0x2BF // 1010111111 '^'
    case 95 => 0x16D // 101101101  '_'
    case _ => 0
  }

  function CharsetRow12(c: int): bv16
  {
    match c
    case 96 => 0x2DF // 1011011111 '`'
    case 97 => 0x00B // 1011       'a'
    case 98 => 0x05F // 1011111    'b'
    case 99 => 0x02F // 101111     'c'
    case 100 => 0x02D // 101101     'd'
    case 101 => 0x003 // 11         'e'
    case 102 => 0x03D // 111101     'f'
    case 103 => 0x05B // 1011011    'g'
    case _ => 0
  }

  function CharsetRow13(c: int): bv16
  {
    match c
    case 104 => 0x02B // 101011     'h'
    case 105 => 0x00D // 1101       'i'
    case 106 => 0x1EB // 111101011  'j'
    case 107 => 0x0BF // 10111111   'k'
    case 108 => 0x01B // 11011      'l'
    case 109 => 0x03B // 111011     'm'
    case 110 => 0x00F // 1111       'n'
    case 111 => 0x007 // 111        'o'
    case _ => 0
  }

  function CharsetRow14(c: int): bv16
  {
    match c
    case 112 => 0x03F // 111111     'p'
    case 113 => 0x1BF // 110111111  'q'
    case 114 => 0x015 // 10101      'r'
    case 115 => 0x017 // 10111      's'
    case 116 => 0x005 // 101        't'
    case 117 => 0x037 // 110111     'u'
    case 118 => 0x07B // 1111011    'v'
    case 119 => 0x06B // 1101011    'w'
    case _ => 0
  }

  function CharsetRow15(c: int): bv16
  {
    match c
    case 120 => 0x0DF // 11011111   'x'
    case 121 => 0x05D // 1011101    'y'
    case 122 => 0x1D5 // 111010101  'z'
    case 123 => 0x2B7 // 1010110111 '{'
    case 124 => 0x1BB // 110111011  '|'
    case 125 => 0x2B5 // 1010110101 '}'
    case 126 => 0x2D7 // 1011010111 '~'
    case 127 => 0x3B5 // 1110110101 DEL
    case _ => 0
  }

  /** The codeword of character c as a binary number, 0 where `CHARSET` holds null. */
  function CodeWord(c: int): bv16
  {
    if c < 0 || c >= 128 then 0 else
    if c < 64 then
      if c < 32 then
        if c < 16 then
          if c < 8 then
            CharsetRow0(c)
          else
            CharsetRow1(c)
        else
          if c < 24 then
            CharsetRow2(c)
          else
            CharsetRow3(c)
      else
        if c < 48 then
          if c < 40 then
            CharsetRow4(c)
          else
            CharsetRow5(c)
        else
          if c < 56 then
            CharsetRow6(c)
          else
            CharsetRow7(c)
    else
      if c < 96 then
        if c < 80 then
          if c < 72 then
            CharsetRow8(c)
          else
            CharsetRow9(c)
        else
          if c < 88 then
            CharsetRow10(c)
          else
            CharsetRow11(c)
      else
        if c < 112 then
          if c < 104 then
            CharsetRow12(c)
          else
            CharsetRow13(c)
        else
          if c < 120 then
            CharsetRow14(c)
          else
            CharsetRow15(c)
  }

  /*
   * From a binary number to the symbols of the codeword it spells.
   */

  /** The number of binary digits of w (0 for 0). */
  function BitLength(w: bv16): (n: nat)
    ensures n <= 16
    ensures n == 0 <==> w == 0
  {
    if w < 0x1 then 0 else if w < 0x2 then 1 else if w < 0x4 then 2
    else if w < 0x8 then 3 else if w < 0x10 then 4 else if w < 0x20 then 5
    else if w < 0x40 then 6 else if w < 0x80 then 7 else if w < 0x100 then 8
    else if w < 0x200 then 9 else if w < 0x400 then 10 else if w < 0x800 then 11
    else if w < 0x1000 then 12 else if w < 0x2000 then 13 else if w < 0x4000 then 14
    else if w < 0x8000 then 15 else 16
  }

  /** w with its last digit shifted out. */
  function Half(w: bv16): bv16
  {
    w >> 1
  }

  /** The least significant digit of w as a symbol. */
  function LowSymbol(w: bv16): (b: int)
    ensures b == 0 || b == 1
  {
    if w & 1 == 1 then 1 else 0
  }

  /** The n least significant digits of w as symbols, most significant first. */
  function Digits(w: bv16, n: nat): (s: seq<int>)
    ensures |s| == n
  {
    if n == 0 then [] else Digits(Half(w), n - 1) + [LowSymbol(w)]
  }

  /** The symbols of the codeword spelled by w. */
  function Symbols(w: bv16): (s: seq<int>)
    ensures |s| == BitLength(w)
  {
    Digits(w, BitLength(w))
  }

  /** Every position of w at or below its highest 1 digit (for w below 0x400). */
  function Smear(w: bv16): bv16
  {
    w | (w >> 1) | (w >> 2) | (w >> 3) | (w >> 4) | (w >> 5) | (w >> 6) | (w >> 7) | (w >> 8) | (w >> 9)
  }

  /** No two adjacent 0 digits below the highest 1 digit of w. */
  predicate NoAdjacentZeros(w: bv16)
  {
    (!w & !(w >> 1) & (Smear(w) >> 1)) == 0
  }

  /** w spells a well-formed codeword: 1 to 10 digits, the last one 1, no two adjacent 0 digits. */
  predicate WellFormedWord(w: bv16)
  {
    0x1 <= w < 0x400 && w & 1 == 1 && NoAdjacentZeros(w)
  }

  /*
   * The same facts stated on symbol sequences.
   */

  predicate IsSymbol(x: int)
  {
    x == 0 || x == 1
  }

  /** A codeword as the decoder needs it: 1..10 symbols, 1 first and last, no `00` inside. */
  predicate ValidCodeword(s: seq<int>)
  {
    && 1 <= |s| <= MaxCodeLength
    && (forall k :: 0 <= k < |s| ==> IsSymbol(s[k]))
    && s[0] == 1
    && s[|s| - 1] == 1
    && (forall k :: 0 <= k < |s| - 1 ==> s[k] == 1 || s[k + 1] == 1)
  }

  /** Shifting out the last digit keeps the no-adjacent-zeros property. */
  lemma NoAdjacentZerosShift(w: bv16)
    requires w < 0x400 && NoAdjacentZeros(w)
    ensures NoAdjacentZeros(Half(w))
    ensures w >= 0x4 ==> LowSymbol(w) == 1 || LowSymbol(Half(w)) == 1
  {
  }

  /** Shifting out the last digit removes exactly one digit. */
  lemma BitLengthShift(w: bv16)
    requires w >= 0x2
    ensures BitLength(Half(w)) == BitLength(w) - 1
  {
  }

  /** The symbols of a number below 0x400 with no adjacent zeros: only 0 and 1, a leading 1, no `00`. */
  lemma {:induction false} DigitsShape(w: bv16)
    requires 0x1 <= w < 0x400 && NoAdjacentZeros(w)
    ensures var s := Symbols(w);
      && 1 <= |s| <= MaxCodeLength
      && s[|s| - 1] == LowSymbol(w)
      && (forall k :: 0 <= k < |s| ==> IsSymbol(s[k]))
      && s[0] == 1
      && (forall k :: 0 <= k < |s| - 1 ==> s[k] == 1 || s[k + 1] == 1)
    decreases w
  {
    var n := BitLength(w);
    if w >= 0x2 {
      var v := Half(w);
      NoAdjacentZerosShift(w);
      BitLengthShift(w);
      assert v < w;
      DigitsShape(v);
      var p := Symbols(v);
      assert Symbols(w) == p + [LowSymbol(w)];
      if w >= 0x4 {
        assert p[|p| - 1] == LowSymbol(v);
      } else {
        assert |p| == 1;
      }
    }
  }

  /** A well-formed number spells a valid codeword. */
  lemma WellFormedSymbols(w: bv16)
    requires WellFormedWord(w)
    ensures ValidCodeword(Symbols(w))
  {
    DigitsShape(w);
  }

  /** A number is determined by its last digit and the number left when that digit is shifted out. */
  lemma ShiftAndLowDigit(a: bv16, b: bv16)
    requires Half(a) == Half(b) && LowSymbol(a) == LowSymbol(b)
    ensures a == b
  {
  }

  /** Numbers with one digit, and numbers with more. */
  lemma BitLengthCases(w: bv16)
    ensures BitLength(w) == 1 ==> w == 0x1
    ensures BitLength(w) >= 2 ==> w >= 0x2 && BitLength(Half(w)) == BitLength(w) - 1
  {
  }

  /** The last digit and the digits before it. */
  lemma DigitsSplit(w: bv16, n: nat)
    requires n >= 1
    ensures Digits(w, n)[..n - 1] == Digits(Half(w), n - 1)
    ensures Digits(w, n)[n - 1] == LowSymbol(w)
  {
  }

  /** w has no 1 digit above its n least significant ones. */
  predicate Fits(w: bv16, n: nat)
  {
    if n == 0 then w == 0 else Fits(Half(w), n - 1)
  }

  /** A number has no digit above its bit length. */
  lemma {:induction false} BitLengthFits(w: bv16, n: nat)
    requires BitLength(w) == n
    ensures Fits(w, n)
  {
    BitLengthCases(w);
    if n == 1 {
      assert Half(w) == 0;
    } else if n >= 2 {
      BitLengthFits(Half(w), n - 1);
    }
  }

  /** Equal digit sequences of numbers that fit in those digits come from equal numbers. */
  lemma {:induction false} DigitsInjective(a: bv16, b: bv16, n: nat)
    requires Fits(a, n) && Fits(b, n)
    requires Digits(a, n) == Digits(b, n)
    ensures a == b
  {
    if n >= 1 {
      DigitsSplit(a, n);
      DigitsSplit(b, n);
      DigitsInjective(Half(a), Half(b), n - 1);
      ShiftAndLowDigit(a, b);
    }
  }

  /** Different numbers spell different codewords. */
  lemma SymbolsInjective(a: bv16, b: bv16)
    requires Symbols(a) == Symbols(b)
    ensures a == b
  {
    BitLengthFits(a, BitLength(a));
    BitLengthFits(b, BitLength(b));
    DigitsInjective(a, b, BitLength(a));
  }

  /*
   * Checking the 128 entries.
   */

  /**
   * The character whose codeword is w, or -1 if none: a search over the
   * sorted codewords, used to show that no two characters share one.
   */
  function CodeIndex(w: bv16): int
  {
    if w < 0x17B then
      if w < 0x07F then
        if w < 0x037 then
          if w < 0x017 then
            if w < 0x00B then
              if w < 0x005 then
                if w < 0x003 then
                  if w == 0x001 then 32 else -1
                else
                  if w == 0x003 then 101 else -1
              else
                if w < 0x007 then
                  if w == 0x005 then 116 else -1
                else
                  if w == 0x007 then 111 else -1
            else
              if w < 0x00F then
                if w < 0x00D then
                  if w == 0x00B then 97 else -1
                else
                  if w == 0x00D then 105 else -1
              else
                if w < 0x015 then
                  if w == 0x00F then 110 else -1
                else
                  if w == 0x015 then 114 else -1
          else
            if w < 0x02B then
              if w < 0x01D then
                if w < 0x01B then
                  if w == 0x017 then 115 else -1
                else
                  if w == 0x01B then 108 else -1
              else
                if w < 0x01F then
                  if w == 0x01D then 10 else -1
                else
                  if w == 0x01F then 13 else -1
            else
              if w < 0x02F then
                if w < 0x02D then
                  if w == 0x02B then 104 else -1
                else
                  if w == 0x02D then 100 else -1
              else
                if w < 0x035 then
                  if w == 0x02F then 99 else -1
                else
                  if w == 0x035 then 45 else -1
        else
          if w < 0x05F then
            if w < 0x055 then
              if w < 0x03D then
                if w < 0x03B then
                  if w == 0x037 then 117 else -1
                else
                  if w == 0x03B then 109 else -1
              else
                if w < 0x03F then
                  if w == 0x03D then 102 else -1
                else
                  if w == 0x03F then 112 else -1
            else
              if w < 0x05B then
                if w < 0x057 then
                  if w == 0x055 then 61 else -1
                else
                  if w == 0x057 then 46 else -1
              else
                if w < 0x05D then
                  if w == 0x05B then 103 else -1
                else
                  if w == 0x05D then 121 else -1
          else
            if w < 0x075 then
              if w < 0x06D then
                if w < 0x06B then
                  if w == 0x05F then 98 else -1
                else
                  if w == 0x06B then 119 else -1
              else
                if w < 0x06F then
                  if w == 0x06D then 84 else -1
                else
                  if w == 0x06F then 83 else -1
            else
              if w < 0x07B then
                if w < 0x077 then
                  if w == 0x075 then 44 else -1
                else
                  if w == 0x077 then 69 else -1
              else
                if w < 0x07D then
                  if w == 0x07B then 118 else -1
                else
                  if w == 0x07D then 65 else -1
      else
        if w < 0x0EF then
          if w < 0x0BF then
            if w < 0x0B5 then
              if w < 0x0AD then
                if w < 0x0AB then
                  if w == 0x07F then 73 else -1
                else
                  if w == 0x0AB then 79 else -1
              else
                if w < 0x0AF then
                  if w == 0x0AD then 67 else -1
                else
                  if w == 0x0AF then 82 else -1
            else
              if w < 0x0BB then
                if w < 0x0B7 then
                  if w == 0x0B5 then 68 else -1
                else
                  if w == 0x0B7 then 48 else -1
              else
                if w < 0x0BD then
                  if w == 0x0BB then 77 else -1
                else
                  if w == 0x0BD then 49 else -1
          else
            if w < 0x0DD then
              if w < 0x0D7 then
                if w < 0x0D5 then
                  if w == 0x0BF then 107 else -1
                else
                  if w == 0x0D5 then 80 else -1
              else
                if w < 0x0DB then
                  if w == 0x0D7 then 76 else -1
                else
                  if w == 0x0DB then 70 else -1
            else
              if w < 0x0EB then
                if w < 0x0DF then
                  if w == 0x0DD then 78 else -1
                else
                  if w == 0x0DF then 120 else -1
              else
                if w < 0x0ED then
                  if w == 0x0EB then 66 else -1
                else
                  if w == 0x0ED then 50 else -1
        else
          if w < 0x15B then
            if w < 0x0FD then
              if w < 0x0F7 then
                if w < 0x0F5 then
                  if w == 0x0EF then 9 else -1
                else
                  if w == 0x0F5 then 58 else -1
              else
                if w < 0x0FB then
                  if w == 0x0F7 then 41 else -1
                else
                  if w == 0x0FB then 40 else -1
            else
              if w < 0x155 then
                if w < 0x0FF then
                  if w == 0x0FD then 71 else -1
                else
                  if w == 0x0FF then 51 else -1
              else
                if w < 0x157 then
                  if w == 0x155 then 72 else -1
                else
                  if w == 0x157 then 85 else -1
          else
            if w < 0x16D then
              if w < 0x15F then
                if w < 0x15D then
                  if w == 0x15B then 53 else -1
                else
                  if w == 0x15D then 87 else -1
              else
                if w < 0x16B then
                  if w == 0x15F then 34 else -1
                else
                  if w == 0x16B then 54 else -1
            else
              if w < 0x175 then
                if w < 0x16F then
                  if w == 0x16D then 95 else -1
                else
                  if w == 0x16F then 42 else -1
              else
                if w < 0x177 then
                  if w == 0x175 then 88 else -1
                else
                  if w == 0x177 then 52 else -1
    else
      if w < 0x2D7 then
        if w < 0x1EB then
          if w < 0x1BB then
            if w < 0x1AD then
              if w < 0x17F then
                if w < 0x17D then
                  if w == 0x17B then 89 else -1
                else
                  if w == 0x17D then 75 else -1
              else
                if w < 0x1AB then
                  if w == 0x17F then 39 else -1
                else
                  if w == 0x1AB then 56 else -1
            else
              if w < 0x1B5 then
                if w < 0x1AF then
                  if w == 0x1AD then 55 else -1
                else
                  if w == 0x1AF then 47 else -1
              else
                if w < 0x1B7 then
                  if w == 0x1B5 then 86 else -1
                else
                  if w == 0x1B7 then 57 else -1
          else
            if w < 0x1D7 then
              if w < 0x1BF then
                if w < 0x1BD then
                  if w == 0x1BB then 124 else -1
                else
                  if w == 0x1BD then 59 else -1
              else
                if w < 0x1D5 then
                  if w == 0x1BF then 113 else -1
                else
                  if w == 0x1D5 then 122 else -1
            else
              if w < 0x1DD then
                if w < 0x1DB then
                  if w == 0x1D7 then 62 else -1
                else
                  if w == 0x1DB then 36 else -1
              else
                if w < 0x1DF then
                  if w == 0x1DD then 81 else -1
                else
                  if w == 0x1DF then 43 else -1
        else
          if w < 0x2AD then
            if w < 0x1F7 then
              if w < 0x1EF then
                if w < 0x1ED then
                  if w == 0x1EB then 106 else -1
                else
                  if w == 0x1ED then 60 else -1
              else
                if w < 0x1F5 then
                  if w == 0x1EF then 92 else -1
                else
                  if w == 0x1F5 then 35 else -1
            else
              if w < 0x1FF then
                if w < 0x1FD then
                  if w == 0x1F7 then 91 else -1
                else
                  if w == 0x1FD then 74 else -1
              else
                if w < 0x2AB then
                  if w == 0x1FF then 33 else -1
                else
                  if w == 0x2AB then 0 else -1
          else
            if w < 0x2BB then
              if w < 0x2B5 then
                if w < 0x2AF then
                  if w == 0x2AD then 90 else -1
                else
                  if w == 0x2AF then 63 else -1
              else
                if w < 0x2B7 then
                  if w == 0x2B5 then 125 else -1
                else
                  if w == 0x2B7 then 123 else -1
            else
              if w < 0x2BF then
                if w < 0x2BD then
                  if w == 0x2BB then 38 else -1
                else
                  if w == 0x2BD then 64 else -1
              else
                if w < 0x2D5 then
                  if w == 0x2BF then 94 else -1
                else
                  if w == 0x2D5 then 37 else -1
      else
        if w < 0x35F then
          if w < 0x2F7 then
            if w < 0x2EB then
              if w < 0x2DD then
                if w < 0x2DB then
                  if w == 0x2D7 then 126 else -1
                else
                  if w == 0x2DB then 1 else -1
              else
                if w < 0x2DF then
                  if w == 0x2DD then 12 else -1
                else
                  if w == 0x2DF then 96 else -1
            else
              if w < 0x2EF then
                if w < 0x2ED then
                  if w == 0x2EB then 4 else -1
                else
                  if w == 0x2ED then 2 else -1
              else
                if w < 0x2F5 then
                  if w == 0x2EF then 6 else -1
                else
                  if w == 0x2F5 then 17 else -1
          else
            if w < 0x355 then
              if w < 0x2FD then
                if w < 0x2FB then
                  if w == 0x2F7 then 16 else -1
                else
                  if w == 0x2FB then 30 else -1
              else
                if w < 0x2FF then
                  if w == 0x2FD then 7 else -1
                else
                  if w == 0x2FF then 8 else -1
            else
              if w < 0x35B then
                if w < 0x357 then
                  if w == 0x355 then 27 else -1
                else
                  if w == 0x357 then 23 else -1
              else
                if w < 0x35D then
                  if w == 0x35B then 20 else -1
                else
                  if w == 0x35D then 28 else -1
        else
          if w < 0x37F then
            if w < 0x375 then
              if w < 0x36D then
                if w < 0x36B then
                  if w == 0x35F then 5 else -1
                else
                  if w == 0x36B then 21 else -1
              else
                if w < 0x36F then
                  if w == 0x36D then 22 else -1
                else
                  if w == 0x36F then 11 else -1
            else
              if w < 0x37B then
                if w < 0x377 then
                  if w == 0x375 then 14 else -1
                else
                  if w == 0x377 then 3 else -1
              else
                if w < 0x37D then
                  if w == 0x37B then 24 else -1
                else
                  if w == 0x37D then 25 else -1
          else
            if w < 0x3B5 then
              if w < 0x3AD then
                if w < 0x3AB then
                  if w == 0x37F then 31 else -1
                else
                  if w == 0x3AB then 15 else -1
              else
                if w < 0x3AF then
                  if w == 0x3AD then 18 else -1
                else
                  if w == 0x3AF then 19 else -1
            else
              if w < 0x3BB then
                if w < 0x3B7 then
                  if w == 0x3B5 then 127 else -1
                else
                  if w == 0x3B7 then 26 else -1
              else
                if w < 0x3F7 then
                  if w == 0x3BB then 29 else -1
                else
                  if w == 0x3F7 then 93 else -1
  }

  /** Character c has a well-formed codeword that identifies it. */
  predicate EntryOk(c: int)
  {
    WellFormedWord(CodeWord(c)) && CodeIndex(CodeWord(c)) == c
  }

  lemma CharsetEntries0To7()
    ensures CodeWord(0) == 0x2AB && WellFormedWord(0x2AB) && CodeIndex(0x2AB) == 0
    ensures CodeWord(1) == 0x2DB && WellFormedWord(0x2DB) && CodeIndex(0x2DB) == 1
    ensures CodeWord(2) == 0x2ED && WellFormedWord(0x2ED) && CodeIndex(0x2ED) == 2
    ensures CodeWord(3) == 0x377 && WellFormedWord(0x377) && CodeIndex(0x377) == 3
    ensures CodeWord(4) == 0x2EB && WellFormedWord(0x2EB) && CodeIndex(0x2EB) == 4
    ensures CodeWord(5) == 0x35F && WellFormedWord(0x35F) && CodeIndex(0x35F) == 5
    ensures CodeWord(6) == 0x2EF && WellFormedWord(0x2EF) && CodeIndex(0x2EF) == 6
    ensures CodeWord(7) == 0x2FD && WellFormedWord(0x2FD) && CodeIndex(0x2FD) == 7
  {
  }

  lemma CharsetBlock0(c: int)
    requires 0 <= c < 8
    ensures EntryOk(c)
  {
    CharsetEntries0To7();
    if c < 4 {
      if c < 2 {
        if c < 1 {
          assert c == 0;
        } else {
          assert c == 1;
        }
      } else {
        if c < 3 {
          assert c == 2;
        } else {
          assert c == 3;
        }
      }
    } else {
      if c < 6 {
        if c < 5 {
          assert c == 4;
        } else {
          assert c == 5;
        }
      } else {
        if c < 7 {
          assert c == 6;
        } else {
          assert c == 7;
        }
      }
    }
  }

  lemma CharsetEntries8To15()
    ensures CodeWord(8) == 0x2FF && WellFormedWord(0x2FF) && CodeIndex(0x2FF) == 8
    ensures CodeWord(9) == 0x0EF && WellFormedWord(0x0EF) && CodeIndex(0x0EF) == 9
    ensures CodeWord(10) == 0x01D && WellFormedWord(0x01D) && CodeIndex(0x01D) == 10
    ensures CodeWord(11) == 0x36F && WellFormedWord(0x36F) && CodeIndex(0x36F) == 11
    ensures CodeWord(12) == 0x2DD && WellFormedWord(0x2DD) && CodeIndex(0x2DD) == 12
    ensures CodeWord(13) == 0x01F && WellFormedWord(0x01F) && CodeIndex(0x01F) == 13
    ensures CodeWord(14) == 0x375 && WellFormedWord(0x375) && CodeIndex(0x375) == 14
    ensures CodeWord(15) == 0x3AB && WellFormedWord(0x3AB) && CodeIndex(0x3AB) == 15
  {
  }

  lemma CharsetBlock8(c: int)
    requires 8 <= c < 16
    ensures EntryOk(c)
  {
    CharsetEntries8To15();
    if c < 12 {
      if c < 10 {
        if c < 9 {
          assert c == 8;
        } else {
          assert c == 9;
        }
      } else {
        if c < 11 {
          assert c == 10;
        } else {
          assert c == 11;
        }
      }
    } else {
      if c < 14 {
        if c < 13 {
          assert c == 12;
        } else {
          assert c == 13;
        }
      } else {
        if c < 15 {
          assert c == 14;
        } else {
          assert c == 15;
        }
      }
    }
  }

  lemma CharsetEntries16To23()
    ensures CodeWord(16) == 0x2F7 && WellFormedWord(0x2F7) && CodeIndex(0x2F7) == 16
    ensures CodeWord(17) == 0x2F5 && WellFormedWord(0x2F5) && CodeIndex(0x2F5) == 17
    ensures CodeWord(18) == 0x3AD && WellFormedWord(0x3AD) && CodeIndex(0x3AD) == 18
    ensures CodeWord(19) == 0x3AF && WellFormedWord(0x3AF) && CodeIndex(0x3AF) == 19
    ensures CodeWord(20) == 0x35B && WellFormedWord(0x35B) && CodeIndex(0x35B) == 20
    ensures CodeWord(21) == 0x36B && WellFormedWord(0x36B) && CodeIndex(0x36B) == 21
    ensures CodeWord(22) == 0x36D && WellFormedWord(0x36D) && CodeIndex(0x36D) == 22
    ensures CodeWord(23) == 0x357 && WellFormedWord(0x357) && CodeIndex(0x357) == 23
  {
  }

  lemma CharsetBlock16(c: int)
    requires 16 <= c < 24
    ensures EntryOk(c)
  {
    CharsetEntries16To23();
    if c < 20 {
      if c < 18 {
        if c < 17 {
          assert c == 16;
        } else {
          assert c == 17;
        }
      } else {
        if c < 19 {
          assert c == 18;
        } else {
          assert c == 19;
        }
      }
    } else {
      if c < 22 {
        if c < 21 {
          assert c == 20;
        } else {
          assert c == 21;
        }
      } else {
        if c < 23 {
          assert c == 22;
        } else {
          assert c == 23;
        }
      }
    }
  }

  lemma CharsetEntries24To31()
    ensures CodeWord(24) == 0x37B && WellFormedWord(0x37B) && CodeIndex(0x37B) == 24
    ensures CodeWord(25) == 0x37D && WellFormedWord(0x37D) && CodeIndex(0x37D) == 25
    ensures CodeWord(26) == 0x3B7 && WellFormedWord(0x3B7) && CodeIndex(0x3B7) == 26
    ensures CodeWord(27) == 0x355 && WellFormedWord(0x355) && CodeIndex(0x355) == 27
    ensures CodeWord(28) == 0x35D && WellFormedWord(0x35D) && CodeIndex(0x35D) == 28
    ensures CodeWord(29) == 0x3BB && WellFormedWord(0x3BB) && CodeIndex(0x3BB) == 29
    ensures CodeWord(30) == 0x2FB && WellFormedWord(0x2FB) && CodeIndex(0x2FB) == 30
    ensures CodeWord(31) == 0x37F && WellFormedWord(0x37F) && CodeIndex(0x37F) == 31
  {
  }

  lemma CharsetBlock24(c: int)
    requires 24 <= c < 32
    ensures EntryOk(c)
  {
    CharsetEntries24To31();
    if c < 28 {
      if c < 26 {
        if c < 25 {
          assert c == 24;
        } else {
          assert c == 25;
        }
      } else {
        if c < 27 {
          assert c == 26;
        } else {
          assert c == 27;
        }
      }
    } else {
      if c < 30 {
        if c < 29 {
          assert c == 28;
        } else {
          assert c == 29;
        }
      } else {
        if c < 31 {
          assert c == 30;
        } else {
          assert c == 31;
        }
      }
    }
  }

  lemma CharsetEntries32To39()
    ensures CodeWord(32) == 0x001 && WellFormedWord(0x001) && CodeIndex(0x001) == 32
    ensures CodeWord(33) == 0x1FF && WellFormedWord(0x1FF) && CodeIndex(0x1FF) == 33
    ensures CodeWord(34) == 0x15F && WellFormedWord(0x15F) && CodeIndex(0x15F) == 34
    ensures CodeWord(35) == 0x1F5 && WellFormedWord(0x1F5) && CodeIndex(0x1F5) == 35
    ensures CodeWord(36) == 0x1DB && WellFormedWord(0x1DB) && CodeIndex(0x1DB) == 36
    ensures CodeWord(37) == 0x2D5 && WellFormedWord(0x2D5) && CodeIndex(0x2D5) == 37
    ensures CodeWord(38) == 0x2BB && WellFormedWord(0x2BB) && CodeIndex(0x2BB) == 38
    ensures CodeWord(39) == 0x17F && WellFormedWord(0x17F) && CodeIndex(0x17F) == 39
  {
  }

  lemma CharsetBlock32(c: int)
    requires 32 <= c < 40
    ensures EntryOk(c)
  {
    CharsetEntries32To39();
    if c < 36 {
      if c < 34 {
        if c < 33 {
          assert c == 32;
        } else {
          assert c == 33;
        }
      } else {
        if c < 35 {
          assert c == 34;
        } else {
          assert c == 35;
        }
      }
    } else {
      if c < 38 {
        if c < 37 {
          assert c == 36;
        } else {
          assert c == 37;
        }
      } else {
        if c < 39 {
          assert c == 38;
        } else {
          assert c == 39;
        }
      }
    }
  }

  lemma CharsetEntries40To47()
    ensures CodeWord(40) == 0x0FB && WellFormedWord(0x0FB) && CodeIndex(0x0FB) == 40
    ensures CodeWord(41) == 0x0F7 && WellFormedWord(0x0F7) && CodeIndex(0x0F7) == 41
    ensures CodeWord(42) == 0x16F && WellFormedWord(0x16F) && CodeIndex(0x16F) == 42
    ensures CodeWord(43) == 0x1DF && WellFormedWord(0x1DF) && CodeIndex(0x1DF) == 43
    ensures CodeWord(44) == 0x075 && WellFormedWord(0x075) && CodeIndex(0x075) == 44
    ensures CodeWord(45) == 0x035 && WellFormedWord(0x035) && CodeIndex(0x035) == 45
    ensures CodeWord(46) == 0x057 && WellFormedWord(0x057) && CodeIndex(0x057) == 46
    ensures CodeWord(47) == 0x1AF && WellFormedWord(0x1AF) && CodeIndex(0x1AF) == 47
  {
  }

  lemma CharsetBlock40(c: int)
    requires 40 <= c < 48
    ensures EntryOk(c)
  {
    CharsetEntries40To47();
    if c < 44 {
      if c < 42 {
        if c < 41 {
          assert c == 40;
        } else {
          assert c == 41;
        }
      } else {
        if c < 43 {
          assert c == 42;
        } else {
          assert c == 43;
        }
      }
    } else {
      if c < 46 {
        if c < 45 {
          assert c == 44;
        } else {
          assert c == 45;
        }
      } else {
        if c < 47 {
          assert c == 46;
        } else {
          assert c == 47;
        }
      }
    }
  }

  lemma CharsetEntries48To55()
    ensures CodeWord(48) == 0x0B7 && WellFormedWord(0x0B7) && CodeIndex(0x0B7) == 48
    ensures CodeWord(49) == 0x0BD && WellFormedWord(0x0BD) && CodeIndex(0x0BD) == 49
    ensures CodeWord(50) == 0x0ED && WellFormedWord(0x0ED) && CodeIndex(0x0ED) == 50
    ensures CodeWord(51) == 0x0FF && WellFormedWord(0x0FF) && CodeIndex(0x0FF) == 51
    ensures CodeWord(52) == 0x177 && WellFormedWord(0x177) && CodeIndex(0x177) == 52
    ensures CodeWord(53) == 0x15B && WellFormedWord(0x15B) && CodeIndex(0x15B) == 53
    ensures CodeWord(54) == 0x16B && WellFormedWord(0x16B) && CodeIndex(0x16B) == 54
    ensures CodeWord(55) == 0x1AD && WellFormedWord(0x1AD) && CodeIndex(0x1AD) == 55
  {
  }

  lemma CharsetBlock48(c: int)
    requires 48 <= c < 56
    ensures EntryOk(c)
  {
    CharsetEntries48To55();
    if c < 52 {
      if c < 50 {
        if c < 49 {
          assert c == 48;
        } else {
          assert c == 49;
        }
      } else {
        if c < 51 {
          assert c == 50;
        } else {
          assert c == 51;
        }
      }
    } else {
      if c < 54 {
        if c < 53 {
          assert c == 52;
        } else {
          assert c == 53;
        }
      } else {
        if c < 55 {
          assert c == 54;
        } else {
          assert c == 55;
        }
      }
    }
  }

  lemma CharsetEntries56To63()
    ensures CodeWord(56) == 0x1AB && WellFormedWord(0x1AB) && CodeIndex(0x1AB) == 56
    ensures CodeWord(57) == 0x1B7 && WellFormedWord(0x1B7) && CodeIndex(0x1B7) == 57
    ensures CodeWord(58) == 0x0F5 && WellFormedWord(0x0F5) && CodeIndex(0x0F5) == 58
    ensures CodeWord(59) == 0x1BD && WellFormedWord(0x1BD) && CodeIndex(0x1BD) == 59
    ensures CodeWord(60) == 0x1ED && WellFormedWord(0x1ED) && CodeIndex(0x1ED) == 60
    ensures CodeWord(61) == 0x055 && WellFormedWord(0x055) && CodeIndex(0x055) == 61
    ensures CodeWord(62) == 0x1D7 && WellFormedWord(0x1D7) && CodeIndex(0x1D7) == 62
    ensures CodeWord(63) == 0x2AF && WellFormedWord(0x2AF) && CodeIndex(0x2AF) == 63
  {
  }

  lemma CharsetBlock56(c: int)
    requires 56 <= c < 64
    ensures EntryOk(c)
  {
    CharsetEntries56To63();
    if c < 60 {
      if c < 58 {
        if c < 57 {
          assert c == 56;
        } else {
          assert c == 57;
        }
      } else {
        if c < 59 {
          assert c == 58;
        } else {
          assert c == 59;
        }
      }
    } else {
      if c < 62 {
        if c < 61 {
          assert c == 60;
        } else {
          assert c == 61;
        }
      } else {
        if c < 63 {
          assert c == 62;
        } else {
          assert c == 63;
        }
      }
    }
  }

  lemma CharsetEntries64To71()
    ensures CodeWord(64) == 0x2BD && WellFormedWord(0x2BD) && CodeIndex(0x2BD) == 64
    ensures CodeWord(65) == 0x07D && WellFormedWord(0x07D) && CodeIndex(0x07D) == 65
    ensures CodeWord(66) == 0x0EB && WellFormedWord(0x0EB) && CodeIndex(0x0EB) == 66
    ensures CodeWord(67) == 0x0AD && WellFormedWord(0x0AD) && CodeIndex(0x0AD) == 67
    ensures CodeWord(68) == 0x0B5 && WellFormedWord(0x0B5) && CodeIndex(0x0B5) == 68
    ensures CodeWord(69) == 0x077 && WellFormedWord(0x077) && CodeIndex(0x077) == 69
    ensures CodeWord(70) == 0x0DB && WellFormedWord(0x0DB) && CodeIndex(0x0DB) == 70
    ensures CodeWord(71) == 0x0FD && WellFormedWord(0x0FD) && CodeIndex(0x0FD) == 71
  {
  }

  lemma CharsetBlock64(c: int)
    requires 64 <= c < 72
    ensures EntryOk(c)
  {
    CharsetEntries64To71();
    if c < 68 {
      if c < 66 {
        if c < 65 {
          assert c == 64;
        } else {
          assert c == 65;
        }
      } else {
        if c < 67 {
          assert c == 66;
        } else {
          assert c == 67;
        }
      }
    } else {
      if c < 70 {
        if c < 69 {
          assert c == 68;
        } else {
          assert c == 69;
        }
      } else {
        if c < 71 {
          assert c == 70;
        } else {
          assert c == 71;
        }
      }
    }
  }

  lemma CharsetEntries72To79()
    ensures CodeWord(72) == 0x155 && WellFormedWord(0x155) && CodeIndex(0x155) == 72
    ensures CodeWord(73) == 0x07F && WellFormedWord(0x07F) && CodeIndex(0x07F) == 73
    ensures CodeWord(74) == 0x1FD && WellFormedWord(0x1FD) && CodeIndex(0x1FD) == 74
    ensures CodeWord(75) == 0x17D && WellFormedWord(0x17D) && CodeIndex(0x17D) == 75
    ensures CodeWord(76) == 0x0D7 && WellFormedWord(0x0D7) && CodeIndex(0x0D7) == 76
    ensures CodeWord(77) == 0x0BB && WellFormedWord(0x0BB) && CodeIndex(0x0BB) == 77
    ensures CodeWord(78) == 0x0DD && WellFormedWord(0x0DD) && CodeIndex(0x0DD) == 78
    ensures CodeWord(79) == 0x0AB && WellFormedWord(0x0AB) && CodeIndex(0x0AB) == 79
  {
  }

  lemma CharsetBlock72(c: int)
    requires 72 <= c < 80
    ensures EntryOk(c)
  {
    CharsetEntries72To79();
    if c < 76 {
      if c < 74 {
        if c < 73 {
          assert c == 72;
        } else {
          assert c == 73;
        }
      } else {
        if c < 75 {
          assert c == 74;
        } else {
          assert c == 75;
        }
      }
    } else {
      if c < 78 {
        if c < 77 {
          assert c == 76;
        } else {
          assert c == 77;
        }
      } else {
        if c < 79 {
          assert c == 78;
        } else {
          assert c == 79;
        }
      }
    }
  }

  lemma CharsetEntries80To87()
    ensures CodeWord(80) == 0x0D5 && WellFormedWord(0x0D5) && CodeIndex(0x0D5) == 80
    ensures CodeWord(81) == 0x1DD && WellFormedWord(0x1DD) && CodeIndex(0x1DD) == 81
    ensures CodeWord(82) == 0x0AF && WellFormedWord(0x0AF) && CodeIndex(0x0AF) == 82
    ensures CodeWord(83) == 0x06F && WellFormedWord(0x06F) && CodeIndex(0x06F) == 83
    ensures CodeWord(84) == 0x06D && WellFormedWord(0x06D) && CodeIndex(0x06D) == 84
    ensures CodeWord(85) == 0x157 && WellFormedWord(0x157) && CodeIndex(0x157) == 85
    ensures CodeWord(86) == 0x1B5 && WellFormedWord(0x1B5) && CodeIndex(0x1B5) == 86
    ensures CodeWord(87) == 0x15D && WellFormedWord(0x15D) && CodeIndex(0x15D) == 87
  {
  }

  lemma CharsetBlock80(c: int)
    requires 80 <= c < 88
    ensures EntryOk(c)
  {
    CharsetEntries80To87();
    if c < 84 {
      if c < 82 {
        if c < 81 {
          assert c == 80;
        } else {
          assert c == 81;
        }
      } else {
        if c < 83 {
          assert c == 82;
        } else {
          assert c == 83;
        }
      }
    } else {
      if c < 86 {
        if c < 85 {
          assert c == 84;
        } else {
          assert c == 85;
        }
      } else {
        if c < 87 {
          assert c == 86;
        } else {
          assert c == 87;
        }
      }
    }
  }

  lemma CharsetEntries88To95()
    ensures CodeWord(88) == 0x175 && WellFormedWord(0x175) && CodeIndex(0x175) == 88
    ensures CodeWord(89) == 0x17B && WellFormedWord(0x17B) && CodeIndex(0x17B) == 89
    ensures CodeWord(90) == 0x2AD && WellFormedWord(0x2AD) && CodeIndex(0x2AD) == 90
    ensures CodeWord(91) == 0x1F7 && WellFormedWord(0x1F7) && CodeIndex(0x1F7) == 91
    ensures CodeWord(92) == 0x1EF && WellFormedWord(0x1EF) && CodeIndex(0x1EF) == 92
    ensures CodeWord(93) == 0x3F7 && WellFormedWord(0x3F7) && CodeIndex(0x3F7) == 93
    ensures CodeWord(94) == 0x2BF && WellFormedWord(0x2BF) && CodeIndex(0x2BF) == 94
    ensures CodeWord(95) == 0x16D && WellFormedWord(0x16D) && CodeIndex(0x16D) == 95
  {
  }

  lemma CharsetBlock88(c: int)
    requires 88 <= c < 96
    ensures EntryOk(c)
  {
    CharsetEntries88To95();
    if c < 92 {
      if c < 90 {
        if c < 89 {
          assert c == 88;
        } else {
          assert c == 89;
        }
      } else {
        if c < 91 {
          assert c == 90;
        } else {
          assert c == 91;
        }
      }
    } else {
      if c < 94 {
        if c < 93 {
          assert c == 92;
        } else {
          assert c == 93;
        }
      } else {
        if c < 95 {
          assert c == 94;
        } else {
          assert c == 95;
        }
      }
    }
  }

  lemma CharsetEntries96To103()
    ensures CodeWord(96) == 0x2DF && WellFormedWord(0x2DF) && CodeIndex(0x2DF) == 96
    ensures CodeWord(97) == 0x00B && WellFormedWord(0x00B) && CodeIndex(0x00B) == 97
    ensures CodeWord(98) == 0x05F && WellFormedWord(0x05F) && CodeIndex(0x05F) == 98
    ensures CodeWord(99) == 0x02F && WellFormedWord(0x02F) && CodeIndex(0x02F) == 99
    ensures CodeWord(100) == 0x02D && WellFormedWord(0x02D) && CodeIndex(0x02D) == 100
    ensures CodeWord(101) == 0x003 && WellFormedWord(0x003) && CodeIndex(0x003) == 101
    ensures CodeWord(102) == 0x03D && WellFormedWord(0x03D) && CodeIndex(0x03D) == 102
    ensures CodeWord(103) == 0x05B && WellFormedWord(0x05B) && CodeIndex(0x05B) == 103
  {
  }

  lemma CharsetBlock96(c: int)
    requires 96 <= c < 104
    ensures EntryOk(c)
  {
    CharsetEntries96To103();
    if c < 100 {
      if c < 98 {
        if c < 97 {
          assert c == 96;
        } else {
          assert c == 97;
        }
      } else {
        if c < 99 {
          assert c == 98;
        } else {
          assert c == 99;
        }
      }
    } else {
      if c < 102 {
        if c < 101 {
          assert c == 100;
        } else {
          assert c == 101;
        }
      } else {
        if c < 103 {
          assert c == 102;
        } else {
          assert c == 103;
        }
      }
    }
  }

  lemma CharsetEntries104To111()
    ensures CodeWord(104) == 0x02B && WellFormedWord(0x02B) && CodeIndex(0x02B) == 104
    ensures CodeWord(105) == 0x00D && WellFormedWord(0x00D) && CodeIndex(0x00D) == 105
    ensures CodeWord(106) == 0x1EB && WellFormedWord(0x1EB) && CodeIndex(0x1EB) == 106
    ensures CodeWord(107) == 0x0BF && WellFormedWord(0x0BF) && CodeIndex(0x0BF) == 107
    ensures CodeWord(108) == 0x01B && WellFormedWord(0x01B) && CodeIndex(0x01B) == 108
    ensures CodeWord(109) == 0x03B && WellFormedWord(0x03B) && CodeIndex(0x03B) == 109
    ensures CodeWord(110) == 0x00F && WellFormedWord(0x00F) && CodeIndex(0x00F) == 110
    ensures CodeWord(111) == 0x007 && WellFormedWord(0x007) && CodeIndex(0x007) == 111
  {
  }

  lemma CharsetBlock104(c: int)
    requires 104 <= c < 112
    ensures EntryOk(c)
  {
    CharsetEntries104To111();
    if c < 108 {
      if c < 106 {
        if c < 105 {
          assert c == 104;
        } else {
          assert c == 105;
        }
      } else {
        if c < 107 {
          assert c == 106;
        } else {
          assert c == 107;
        }
      }
    } else {
      if c < 110 {
        if c < 109 {
          assert c == 108;
        } else {
          assert c == 109;
        }
      } else {
        if c < 111 {
          assert c == 110;
        } else {
          assert c == 111;
        }
      }
    }
  }

  lemma CharsetEntries112To119()
    ensures CodeWord(112) == 0x03F && WellFormedWord(0x03F) && CodeIndex(0x03F) == 112
    ensures CodeWord(113) == 0x1BF && WellFormedWord(0x1BF) && CodeIndex(0x1BF) == 113
    ensures CodeWord(114) == 0x015 && WellFormedWord(0x015) && CodeIndex(0x015) == 114
    ensures CodeWord(115) == 0x017 && WellFormedWord(0x017) && CodeIndex(0x017) == 115
    ensures CodeWord(116) == 0x005 && WellFormedWord(0x005) && CodeIndex(0x005) == 116
    ensures CodeWord(117) == 0x037 && WellFormedWord(0x037) && CodeIndex(0x037) == 117
    ensures CodeWord(118) == 0x07B && WellFormedWord(0x07B) && CodeIndex(0x07B) == 118
    ensures CodeWord(119) == 0x06B && WellFormedWord(0x06B) && CodeIndex(0x06B) == 119
  {
  }

  lemma CharsetBlock112(c: int)
    requires 112 <= c < 120
    ensures EntryOk(c)
  {
    CharsetEntries112To119();
    if c < 116 {
      if c < 114 {
        if c < 113 {
          assert c == 112;
        } else {
          assert c == 113;
        }
      } else {
        if c < 115 {
          assert c == 114;
        } else {
          assert c == 115;
        }
      }
    } else {
      if c < 118 {
        if c < 117 {
          assert c == 116;
        } else {
          assert c == 117;
        }
      } else {
        if c < 119 {
          assert c == 118;
        } else {
          assert c == 119;
        }
      }
    }
  }

  lemma CharsetEntries120To127()
    ensures CodeWord(120) == 0x0DF && WellFormedWord(0x0DF) && CodeIndex(0x0DF) == 120
    ensures CodeWord(121) == 0x05D && WellFormedWord(0x05D) && CodeIndex(0x05D) == 121
    ensures CodeWord(122) == 0x1D5 && WellFormedWord(0x1D5) && CodeIndex(0x1D5) == 122
    ensures CodeWord(123) == 0x2B7 && WellFormedWord(0x2B7) && CodeIndex(0x2B7) == 123
    ensures CodeWord(124) == 0x1BB && WellFormedWord(0x1BB) && CodeIndex(0x1BB) == 124
    ensures CodeWord(125) == 0x2B5 && WellFormedWord(0x2B5) && CodeIndex(0x2B5) == 125
    ensures CodeWord(126) == 0x2D7 && WellFormedWord(0x2D7) && CodeIndex(0x2D7) == 126
    ensures CodeWord(127) == 0x3B5 && WellFormedWord(0x3B5) && CodeIndex(0x3B5) == 127
  {
  }

  lemma CharsetBlock120(c: int)
    requires 120 <= c < 128
    ensures EntryOk(c)
  {
    CharsetEntries120To127();
    if c < 124 {
      if c < 122 {
        if c < 121 {
          assert c == 120;
        } else {
          assert c == 121;
        }
      } else {
        if c < 123 {
          assert c == 122;
        } else {
          assert c == 123;
        }
      }
    } else {
      if c < 126 {
        if c < 125 {
          assert c == 124;
        } else {
          assert c == 125;
        }
      } else {
        if c < 127 {
          assert c == 126;
        } else {
          assert c == 127;
        }
      }
    }
  }

  /** Each of the 128 codewords as written is well formed and identifies its character. */
  lemma CodeWordEntry(c: int)
    requires 0 <= c < DefinedChars
    ensures WellFormedWord(CodeWord(c))
    ensures CodeIndex(CodeWord(c)) == c
  {
    if c < 64 {
      if c < 32 {
        if c < 16 {
          if c < 8 {
            CharsetBlock0(c);
          } else {
            CharsetBlock8(c);
          }
        } else {
          if c < 24 {
            CharsetBlock16(c);
          } else {
            CharsetBlock24(c);
          }
        }
      } else {
        if c < 48 {
          if c < 40 {
            CharsetBlock32(c);
          } else {
            CharsetBlock40(c);
          }
        } else {
          if c < 56 {
            CharsetBlock48(c);
          } else {
            CharsetBlock56(c);
          }
        }
      }
    } else {
      if c < 96 {
        if c < 80 {
          if c < 72 {
            CharsetBlock64(c);
          } else {
            CharsetBlock72(c);
          }
        } else {
          if c < 88 {
            CharsetBlock80(c);
          } else {
            CharsetBlock88(c);
          }
        }
      } else {
        if c < 112 {
          if c < 104 {
            CharsetBlock96(c);
          } else {
            CharsetBlock104(c);
          }
        } else {
          if c < 120 {
            CharsetBlock112(c);
          } else {
            CharsetBlock120(c);
          }
        }
      }
    }
    
  }

  /*
   * The table as an array of 256 optional codewords.
   */

  /** A table in the shape of `CHARSET`: slots 0..127 hold valid, pairwise distinct codewords, slots 128..255 null. */
  predicate ValidTable(t: seq<Option<seq<int>>>)
  {
    && |t| == CharsetSize
    && (forall c :: 0 <= c < CharsetSize ==> (t[c].Some? <==> c < DefinedChars))
    && (forall c :: 0 <= c < DefinedChars ==> ValidCodeword(t[c].value))
    && (forall c, d :: 0 <= c < DefinedChars && 0 <= d < DefinedChars && t[c] == t[d] ==> c == d)
  }

  /** The table slot for c given its codeword as a number. */
  function Slot(w: bv16): Option<seq<int>>
  {
    if w == 0 then None else Some(Symbols(w))
  }

  /** `CHARSET` as written. */
  function Charset(): (t: seq<Option<seq<int>>>)
    ensures |t| == CharsetSize
  {
    seq(CharsetSize, c requires 0 <= c < CharsetSize => Slot(CodeWord(c)))
  }

  /** Slots 0..127 of `CHARSET` hold valid codewords, the others null. */
  lemma CharsetCodewords()
    ensures forall c :: 0 <= c < CharsetSize ==> (Charset()[c].Some? <==> c < DefinedChars)
    ensures forall c :: 0 <= c < DefinedChars ==> ValidCodeword(Charset()[c].value)
  {
    forall c | 0 <= c < DefinedChars
      ensures Charset()[c].Some? && ValidCodeword(Charset()[c].value)
    {
      CodeWordEntry(c);
      WellFormedSymbols(CodeWord(c));
      assert Charset()[c] == Some(Symbols(CodeWord(c)));
    }
  }

  /** No two characters of `CHARSET` share a codeword. */
  lemma CharsetDistinct()
    ensures forall c, d :: 0 <= c < DefinedChars && 0 <= d < DefinedChars && Charset()[c] == Charset()[d] ==> c == d
  {
    forall c, d | 0 <= c < DefinedChars && 0 <= d < DefinedChars && Charset()[c] == Charset()[d]
      ensures c == d
    {
      CodeWordEntry(c);
      CodeWordEntry(d);
      SymbolsInjective(CodeWord(c), CodeWord(d));
    }
  }

  /** `CHARSET` holds 128 valid and pairwise distinct codewords in slots 0..127 and null above. */
  lemma CharsetValid()
    ensures ValidTable(Charset())
  {
    CharsetCodewords();
    CharsetDistinct();
  }

  /** `getPskData(b)`: the codeword of b, or NUL's codeword when b is out of range or its slot is null. */
  function PskData(t: seq<Option<seq<int>>>, b: int): (code: seq<int>)
    requires ValidTable(t)
    ensures ValidCodeword(code)
    ensures 0 <= b < DefinedChars ==> Some(code) == t[b]
    ensures !(0 <= b < DefinedChars) ==> Some(code) == t[0]
  {
    if b >= CharsetSize || b < 0 then t[0].value
    else match t[b]
      case None => t[0].value
      case Some(code) => code
  }

  /*
   * The entry for ']' (0x5D).
   */

  /** The codeword the alphabet documentation of BpskGenerator and PSK31 give for ']' (0x5D): 111111011. */
  const DocumentedBracketWord: bv16 := 0x1FB

  /** 0x3F7 spells 1111110111. */
  lemma AsWrittenBracketSymbols()
    ensures Symbols(0x3F7) == [1, 1, 1, 1, 1, 1, 0, 1, 1, 1]
  {
    assert Digits(0x1, 1) == [1];
    assert Digits(0x3, 2) == [1, 1];
    assert Digits(0x7, 3) == [1, 1, 1];
    assert Digits(0xF, 4) == [1, 1, 1, 1];
    assert Digits(0x1F, 5) == [1, 1, 1, 1, 1];
    assert Digits(0x3F, 6) == [1, 1, 1, 1, 1, 1];
    assert Digits(0x7E, 7) == [1, 1, 1, 1, 1, 1, 0];
    assert Digits(0xFD, 8) == [1, 1, 1, 1, 1, 1, 0, 1];
    assert Digits(0x1FB, 9) == [1, 1, 1, 1, 1, 1, 0, 1, 1];
    assert Digits(0x3F7, 10) == [1, 1, 1, 1, 1, 1, 0, 1, 1, 1];
  }

  /** 0x1FB spells 111111011. */
  lemma DocumentedBracketSymbols()
    ensures Symbols(DocumentedBracketWord) == [1, 1, 1, 1, 1, 1, 0, 1, 1]
  {
    assert Digits(0x1, 1) == [1];
    assert Digits(0x3, 2) == [1, 1];
    assert Digits(0x7, 3) == [1, 1, 1];
    assert Digits(0xF, 4) == [1, 1, 1, 1];
    assert Digits(0x1F, 5) == [1, 1, 1, 1, 1];
    assert Digits(0x3F, 6) == [1, 1, 1, 1, 1, 1];
    assert Digits(0x7E, 7) == [1, 1, 1, 1, 1, 1, 0];
    assert Digits(0xFD, 8) == [1, 1, 1, 1, 1, 1, 0, 1];
    assert Digits(0x1FB, 9) == [1, 1, 1, 1, 1, 1, 0, 1, 1];
  }

  /** As written, `CHARSET[93]` is 1111110111, not the documented 111111011. */
  lemma BracketAsWritten()
    ensures Charset()[93] == Some([1, 1, 1, 1, 1, 1, 0, 1, 1, 1])
    ensures Charset()[93] != Some(Symbols(DocumentedBracketWord))
  {
    assert CodeWord(93) == 0x3F7;
    AsWrittenBracketSymbols();
    DocumentedBracketSymbols();
  }

  /** The table with the documented codeword for ']'. */
  function CorrectedCodeWord(c: int): bv16
  {
    if c == 93 then DocumentedBracketWord else CodeWord(c)
  }

  function CorrectedCharset(): (t: seq<Option<seq<int>>>)
    ensures |t| == CharsetSize
  {
    seq(CharsetSize, c requires 0 <= c < CharsetSize => Slot(CorrectedCodeWord(c)))
  }

  /** Slots 0..127 of the corrected table hold valid codewords, the others null. */
  lemma CorrectedCodewords()
    ensures forall c :: 0 <= c < CharsetSize ==> (CorrectedCharset()[c].Some? <==> c < DefinedChars)
    ensures forall c :: 0 <= c < DefinedChars ==> ValidCodeword(CorrectedCharset()[c].value)
  {
    assert WellFormedWord(DocumentedBracketWord);
    forall c | 0 <= c < DefinedChars
      ensures CorrectedCharset()[c].Some? && ValidCodeword(CorrectedCharset()[c].value)
    {
      CodeWordEntry(c);
      WellFormedSymbols(CorrectedCodeWord(c));
      assert CorrectedCharset()[c] == Some(Symbols(CorrectedCodeWord(c)));
    }
  }

  /** No codeword of the table as written is the documented codeword of ']'. */
  lemma DocumentedBracketUnused(c: int)
    requires 0 <= c < DefinedChars
    ensures CodeWord(c) != DocumentedBracketWord
  {
    CodeWordEntry(c);
    assert CodeIndex(DocumentedBracketWord) == -1;
  }

  /** No two characters of the corrected table share a codeword. */
  lemma CorrectedDistinct()
    ensures forall c, d :: 0 <= c < DefinedChars && 0 <= d < DefinedChars && CorrectedCharset()[c] == CorrectedCharset()[d] ==> c == d
  {
    forall c, d | 0 <= c < DefinedChars && 0 <= d < DefinedChars && CorrectedCharset()[c] == CorrectedCharset()[d]
      ensures c == d
    {
      CodeWordEntry(c);
      CodeWordEntry(d);
      DocumentedBracketUnused(c);
      DocumentedBracketUnused(d);
      SymbolsInjective(CorrectedCodeWord(c), CorrectedCodeWord(d));
    }
  }

  /**
   * The corrected table keeps every invariant, agrees with `CHARSET` on every
   * other character, and none of its codewords is the as-written codeword
   * of ']', so a receiver using the documented alphabet cannot decode what
   * `CHARSET` sends for ']'.
   */
  lemma CorrectedCharsetValid()
    ensures ValidTable(CorrectedCharset())
    ensures forall c :: 0 <= c < CharsetSize && c != 93 ==> CorrectedCharset()[c] == Charset()[c]
    ensures CorrectedCharset()[93] == Some([1, 1, 1, 1, 1, 1, 0, 1, 1])
    ensures forall c :: 0 <= c < CharsetSize ==> CorrectedCharset()[c] != Charset()[93]
  {
    CorrectedCodewords();
    CorrectedDistinct();
    DocumentedBracketSymbols();
    CodeWordEntry(93);
    forall c | 0 <= c < CharsetSize
      ensures CorrectedCharset()[c] != Charset()[93]
    {
      if c < DefinedChars && CorrectedCharset()[c] == Charset()[93] {
        CodeWordEntry(c);
        DocumentedBracketUnused(93);
        SymbolsInjective(CorrectedCodeWord(c), CodeWord(93));
      }
    }
  }
}
