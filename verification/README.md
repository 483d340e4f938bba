# sdsai-dsp BPSK modem, modelled in Dafny

This project models the core of `sdsai-dsp`, a BPSK software modem in the style of PSK31, and proves properties of the model. Text goes through the modem like this:

- **Transmit.** Text bytes become Varicode symbol arrays in `BpskOutputStream`. `BpskGenerator` then turns each array into 16-bit big-endian audio. A `0` symbol reverses the carrier's phase and a `1` keeps it.
- **Receive.** `BpskDetector` reads such audio through a ring buffer two symbols long and reports a `0` for every phase inversion it sees. It reports a `1` when a whole symbol passes without one. `BpskInputStream` then decodes the symbol stream back into bytes, using a trie built from the same Varicode table.
- **Numeric helpers.** The model also covers the Goertzel single-bin detector, the moving-average filter, direct convolution with 16-bit wrap-around, the overlap-add `ConvolutionFilter` and its kernels, the block buffer `FftFilterStream`, the continuous-phase `SignalGenerator`, and the index bookkeeping of `DspUtils` (the exchange loop of `bitReversalSort`, FFT butterflies, DFT, phase and magnitude). As written, `bitReversalSort` exchanges odd positions only, so it is not the bit-reversal permutation an FFT needs (see Findings).

Each Java class is one Dafny module with its own file:

- Classes whose fields change in place are Dafny classes. Their methods are proved against specification functions on values. For example, `BpskDetector.DetectSignal` follows the `Run` state machine, and `BpskInputStream.Read` follows the pure decoder `NextChar`.
- Pure code becomes functions and lemmas.
- Java's primitive conversions are written out in `JavaTypes`: `(short)` and `(byte)` casts, truncating `(int)` of a double, and signed byte packing.
- Doubles are exact reals.
- `Math.sin`, `Math.cos`, `Math.atan` and `Math.sqrt` are function parameters. Only the facts the source relies on are assumed about them: sin² + cos² = 1 for the Goertzel result, `atan` lying in (−π/2, π/2) with the sign of its argument, and `sqrt` being a square root for the magnitudes.

The headline theorem is `VaricodeStream.DecodeEncode`. Decoding the symbols that the output stream writes for any bytes 0..127 gives those bytes back. `BpskInputStreams.ReadCharsEncode` proves the same result for the input stream's `read()` loop. It rests on three facts about the Varicode table, proved entry by entry in `Varicode.CharsetValid`:

- every codeword starts and ends with `1`;
- no codeword contains `00`;
- all codewords are distinct.

Where a doc comment and the code disagree, the model follows the code:

- `Convolution.convolve` never reads `y_off`. Its doc comment says the output starts at `y_off`.
- `DspUtils.dft` accumulates into its outputs rather than overwriting them.
- `FftFilterStream.close` never sets `closed`.

## Model

| member | source | states |
|---|---|---|
| JavaTypes.ToShort | src/main/java/org/sdsai/dsp/DspUtils.java:117-120 | `(short) x` keeps x modulo 2^16 in the signed range, and leaves an in-range x unchanged |
| JavaTypes.ToByte | src/main/java/org/sdsai/dsp/BpskGenerator.java:171-172 | `(byte) x` keeps x modulo 2^8 in the signed range, and leaves an in-range x unchanged |
| JavaTypes.UnpackPack | src/main/java/org/sdsai/dsp/BpskGenerator.java:183 | the sample rebuilt from the high and low bytes of a sample is that sample |
| JavaTypes.PackUnpack | src/main/java/org/sdsai/dsp/BpskGenerator.java:187-188 | splitting the sample a byte pair stands for gives the same byte pair |
| JavaTypes.PackInjective | src/main/java/org/sdsai/dsp/BpskGenerator.java:171-172 | two samples with the same two bytes are equal |
| JavaTypes.TruncReal | src/main/java/org/sdsai/dsp/filters/FilterKernelFactory.java:25 | the `(int)` cast of a double truncates toward zero: within 1 below a non-negative value, within 1 above a non-positive one |
| JavaTypes.DoubleToInt | src/main/java/org/sdsai/dsp/MovingAverageFilter.java:46 | `(int)` of a double truncates toward zero inside the `int` range and saturates to `Integer.MAX_VALUE` or `Integer.MIN_VALUE` outside it |
| JavaTypes.DoubleToShort | src/main/java/org/sdsai/dsp/SignalGenerator.java:47 | `(short)` of a double in the short range is its truncation |
| SignalGenerators.Values | src/main/java/org/sdsai/dsp/SignalGenerator.java:50-52 | sample i of n read from index start is amplitude·sin(w·(start + i)) |
| SignalGenerators.ShortValues | src/main/java/org/sdsai/dsp/SignalGenerator.java:46-48 | the same samples, each cast to `short` |
| SignalGenerators.ValuesSplit | src/main/java/org/sdsai/dsp/SignalGenerator.java:58-74 | reading n samples and then m more gives the n + m samples of one read: the carrier keeps its phase across reads |
| SignalGenerators.SignalGenerator.constructor | src/main/java/org/sdsai/dsp/SignalGenerator.java:23-25 | full-scale amplitude 32767, sample 0, w = 2π·hz / sampleRate |
| SignalGenerators.SignalGenerator.WithAmplitude | src/main/java/org/sdsai/dsp/SignalGenerator.java:34-38 | the given amplitude, sample 0, w = 2π·hz / sampleRate |
| SignalGenerators.SignalGenerator.Tune | src/main/java/org/sdsai/dsp/SignalGenerator.java:40-44 | new frequency and w, sample back to 0, amplitude kept |
| SignalGenerators.SignalGenerator.Read | src/main/java/org/sdsai/dsp/SignalGenerator.java:46-48 | returns the current sample cast to `short` and advances the sample index by one |
| SignalGenerators.SignalGenerator.ReadDouble | src/main/java/org/sdsai/dsp/SignalGenerator.java:50-52 | returns the current sample as a double and advances by one |
| SignalGenerators.SignalGenerator.ReadShorts | src/main/java/org/sdsai/dsp/SignalGenerator.java:58-63 | data[off .. off + len) holds the next len `short` samples, the rest of data is unchanged, len is returned; a len that is not positive reads nothing and returns len |
| SignalGenerators.SignalGenerator.ReadAllShorts | src/main/java/org/sdsai/dsp/SignalGenerator.java:54-56 | the whole array filled with the next samples |
| SignalGenerators.SignalGenerator.ReadDoubles | src/main/java/org/sdsai/dsp/SignalGenerator.java:69-74 | data[off .. off + len) holds the next len double samples, the rest unchanged, len is returned; a len that is not positive reads nothing and returns len |
| SignalGenerators.SignalGenerator.ReadAllDoubles | src/main/java/org/sdsai/dsp/SignalGenerator.java:65-67 | the whole array filled with the next double samples |
| Varicode.BitLength | src/main/java/org/sdsai/dsp/BpskOutputStream.java:14-273 | the number of symbols a table entry spells is its number of binary digits |
| Varicode.Symbols | src/main/java/org/sdsai/dsp/BpskOutputStream.java:14-273 | a table entry spells as many symbols as it has binary digits |
| Varicode.DigitsShape | src/main/java/org/sdsai/dsp/BpskOutputStream.java:14-273 | a number below 0x400 whose digits hold no two adjacent zeros spells 1 to 10 symbols of 0 and 1, starting with 1, with no `00` |
| Varicode.WellFormedSymbols | src/main/java/org/sdsai/dsp/BpskOutputStream.java:14-273 | a well-formed entry spells a valid codeword |
| Varicode.SymbolsInjective | src/main/java/org/sdsai/dsp/BpskOutputStream.java:14-273 | different entries spell different codewords |
| Varicode.CodeWordEntry | src/main/java/org/sdsai/dsp/BpskOutputStream.java:16-272 | each of the 128 entries as written is well formed and is the codeword of its own character only |
| Varicode.Charset | src/main/java/org/sdsai/dsp/BpskOutputStream.java:14-273 | `CHARSET` has 256 slots |
| Varicode.CharsetCodewords | src/main/java/org/sdsai/dsp/BpskOutputStream.java:16-272 | slots 0..127 of `CHARSET` hold valid codewords (1 to 10 symbols, 1 first and last, no `00`) and the others are null |
| Varicode.CharsetDistinct | src/main/java/org/sdsai/dsp/BpskOutputStream.java:16-272 | no two characters of `CHARSET` share a codeword |
| Varicode.CharsetValid | src/main/java/org/sdsai/dsp/BpskOutputStream.java:14-273 | `CHARSET` is a valid table: 128 valid, pairwise distinct codewords and null above |
| Varicode.PskData | src/main/java/org/sdsai/dsp/BpskOutputStream.java:286-297 | the codeword of b for b in 0..127, and NUL's codeword for any other b; always a valid codeword |
| Varicode.AsWrittenBracketSymbols | src/main/java/org/sdsai/dsp/BpskOutputStream.java:206 | the entry written for ']' spells 1111110111 |
| Varicode.DocumentedBracketSymbols | src/main/java/org/sdsai/dsp/BpskGenerator.java:381 | the documented entry for ']' spells 111111011 |
| Varicode.BracketAsWritten | src/main/java/org/sdsai/dsp/BpskOutputStream.java:205-206 | as written, `CHARSET[93]` is 1111110111, not the documented 111111011 |
| Varicode.CorrectedCodewords | src/main/java/org/sdsai/dsp/BpskGenerator.java:381 | slots 0..127 of the corrected table hold valid codewords, the others null |
| Varicode.DocumentedBracketUnused | src/main/java/org/sdsai/dsp/BpskOutputStream.java:16-272 | no codeword of the table as written is the documented codeword of ']' |
| Varicode.CorrectedDistinct | src/main/java/org/sdsai/dsp/BpskGenerator.java:381 | no two characters of the corrected table share a codeword |
| Varicode.CorrectedCharsetValid | src/main/java/org/sdsai/dsp/BpskGenerator.java:381 | the corrected table is valid, differs from `CHARSET` only at ']', and holds no codeword equal to the as-written one for ']' |
| CharsetTrees.WalkAppend | src/main/java/org/sdsai/dsp/BpskInputStream.java:136-152 | walking one more symbol moves to the corresponding child, or off the trie |
| CharsetTrees.WalkPrefix | src/main/java/org/sdsai/dsp/BpskInputStream.java:136-152 | a walk that exists passed through a node at every prefix of its path |
| CharsetTrees.WalkDepth | src/main/java/org/sdsai/dsp/BpskInputStream.java:139-145 | the depth of a node is its parent's plus one, so its distance from the root |
| CharsetTrees.AddChar | src/main/java/org/sdsai/dsp/BpskInputStream.java:133-158 | a successful `addChar` keeps the subtree a node at the same depth |
| CharsetTrees.AddCharSpec | src/main/java/org/sdsai/dsp/BpskInputStream.java:133-158 | `addChar` succeeds exactly when the path is made of 0s and 1s and its end holds no character; it then adds nodes at every prefix with depth parent + 1, stores c at its end, and keeps every other node and character |
| CharsetTrees.BuildTree | src/main/java/org/sdsai/dsp/BpskInputStream.java:59-69 | the trie after any number of slots is a root at depth 0 |
| CharsetTrees.CharsetTreeOf | src/main/java/org/sdsai/dsp/BpskInputStream.java:51-72 | the trie of a valid table is a root at depth 0 holding no character, with every child one deeper than its parent |
| CharsetTrees.CharsetTreeContents | src/main/java/org/sdsai/dsp/BpskInputStream.java:59-69 | the trie of a valid table has a node exactly at the prefixes of its codewords and holds at each codeword its own slot |
| CharsetTrees.BuildCharsetTree | src/main/java/org/sdsai/dsp/BpskInputStream.java:59-72 | the static initializer builds the trie of the table and keeps the longest codeword length as LONGEST_CHARACTER |
| CharsetTrees.FailurePersists | src/main/java/org/sdsai/dsp/BpskInputStream.java:59-69 | once an `addChar` throws, the initializer fails with that exception |
| CharsetTrees.LongestOfValidTable | src/main/java/org/sdsai/dsp/BpskInputStream.java:65-67 | LONGEST_CHARACTER bounds every codeword and is at most ten |
| CharsetTrees.CharsetLongest | src/main/java/org/sdsai/dsp/BpskInputStream.java:57-72 | LONGEST_CHARACTER of `CHARSET` is ten |
| CharsetTrees.FindMatch | src/main/java/org/sdsai/dsp/BpskInputStream.java:175-203 | a successful `findChar` returns a node |
| CharsetTrees.FindChar | src/main/java/org/sdsai/dsp/BpskInputStream.java:175-203 | the loop over path[off .. off + len) computes `findChar` on that slice |
| CharsetTrees.FindMatchDeepest | src/main/java/org/sdsai/dsp/BpskInputStream.java:175-203 | on 0s and 1s, `findChar` returns the deepest node holding a character that the path reaches (depth at most len, its codeword the first depth symbols), or the root when there is none |
| CharsetTrees.FindMatchRejects | src/main/java/org/sdsai/dsp/BpskInputStream.java:187-189 | `findChar` throws IllegalArgumentException for the first element other than 0 or 1 exactly when the walk is still in the trie there |
| CharsetTrees.CodewordInTree | src/main/java/org/sdsai/dsp/BpskInputStream.java:59-69 | in the trie of a valid table the nodes along a codeword exist and its end holds the character |
| CharsetTrees.TreeNodeOnCodeword | src/main/java/org/sdsai/dsp/BpskInputStream.java:59-69 | in the trie of a valid table every node is at most ten deep with no `00` on its path, and a node holding a character is at that character's codeword |
| CharsetTrees.FindCodeword | src/main/java/org/sdsai/dsp/BpskInputStream.java:391-407 | in the trie of a valid table, `findChar` on a codeword, alone or followed by the separator, returns that character at depth the codeword's length |
| CharsetTrees.FindMatchWindow | src/main/java/org/sdsai/dsp/BpskInputStream.java:175-203 | in the trie of a valid table `findChar` looks at no more than the first eleven symbols |
| CharsetTrees.ValidateTree | src/main/java/org/sdsai/dsp/BpskInputStream.java:391-407 | `validateTree` passes exactly when every non-null slot is found as its character at its codeword's length, and always passes on the trie of a valid table |
| VaricodeStream.Encode | src/main/java/org/sdsai/dsp/BpskOutputStream.java:317-343 | the symbols written for bytes are all 0 or 1 |
| VaricodeStream.EncodeSize | src/main/java/org/sdsai/dsp/BpskOutputStream.java:318-322 | the symbol count is the sum of each byte's codeword length plus two |
| VaricodeStream.EncodeAppend | src/main/java/org/sdsai/dsp/BpskOutputStream.java:326-338 | encoding a concatenation concatenates the encodings |
| VaricodeStream.CodePrefix | src/main/java/org/sdsai/dsp/BpskInputStream.java:175-203 | the longest prefix of at most k symbols that is a codeword, 0 when none is |
| VaricodeStream.CodePrefixSame | src/main/java/org/sdsai/dsp/BpskInputStream.java:175-203 | only the first k symbols matter to the longest codeword prefix |
| VaricodeStream.CodePrefixUnique | src/main/java/org/sdsai/dsp/BpskInputStream.java:175-203 | any d that is the longest codeword prefix of at most k symbols is the one computed |
| VaricodeStream.FindMatchLongest | src/main/java/org/sdsai/dsp/BpskInputStream.java:316 | from the root of the trie of a valid table `findChar` never throws on symbols and stops at the longest codeword prefix, the root when there is none |
| VaricodeStream.CodeChar | src/main/java/org/sdsai/dsp/BpskInputStream.java:59-69 | the character of a codeword is one of the 128 defined ones and owns that codeword |
| VaricodeStream.NextChar | src/main/java/org/sdsai/dsp/BpskInputStream.java:299-340 | one `read()` on the symbols to come: -1 only when none are left, otherwise a defined character with fewer symbols left |
| VaricodeStream.NextCharCode | src/main/java/org/sdsai/dsp/BpskInputStream.java:327-335 | a codeword followed by the two-0 separator decodes as its character and leaves what followed |
| VaricodeStream.DecodeAllNext | src/main/java/org/sdsai/dsp/BpskInputStream.java:299-340 | decoding is one `read()` followed by decoding what is left; -1 ends it |
| VaricodeStream.DecodeEncodeThen | src/main/java/org/sdsai/dsp/BpskInputStream.java:316-338 | decoding the symbols written for some bytes followed by any other symbols gives every byte back, then what the others decode to |
| VaricodeStream.DecodeEncode | src/main/java/org/sdsai/dsp/BpskInputStream.java:316-338 | decoding what `write` produces gives every byte back: 0..127 as themselves, any other byte as NUL |
| BpskOutputStreams.BpskOutputStream.constructor | src/main/java/org/sdsai/dsp/BpskOutputStream.java:277-280 | the stream encodes with `CHARSET`, a valid table, and has sent nothing |
| BpskOutputStreams.BpskOutputStream.WriteInt | src/main/java/org/sdsai/dsp/BpskOutputStream.java:303-306 | the codeword of b, then the separator, go to the generator as two arrays |
| BpskOutputStreams.BpskOutputStream.WriteArray | src/main/java/org/sdsai/dsp/BpskOutputStream.java:317-343 | one array goes to the generator: the codeword and separator of each byte of b[off .. off + len), in order |
| BpskOutputStreams.BpskOutputStream.WriteAll | src/main/java/org/sdsai/dsp/BpskOutputStream.java:309-311 | `write(b, 0, b.length)` |
| BpskOutputStreams.BpskOutputStream.SendPreamble | src/main/java/org/sdsai/dsp/BpskOutputStream.java:345-347 | the generator gets the 35 zero symbols of the preamble |
| BpskOutputStreams.BpskOutputStream.SendPostamble | src/main/java/org/sdsai/dsp/BpskOutputStream.java:349-351 | the generator gets the postamble 0, 0 and ten 1s |
| BpskOutputStreams.SymbolCount | src/main/java/org/sdsai/dsp/BpskOutputStream.java:318-322 | the first loop computes the length of the encoding |
| BpskOutputStreams.SizeStep | src/main/java/org/sdsai/dsp/BpskOutputStream.java:321 | the size sum over one more byte adds its codeword length and two |
| BpskOutputStreams.FillSymbols | src/main/java/org/sdsai/dsp/BpskOutputStream.java:324-338 | the second loop fills a new array of that size with the encoding of the bytes |
| BpskOutputStreams.FillStep | src/main/java/org/sdsai/dsp/BpskOutputStream.java:326-338 | moving one byte from the rest to the prefix moves its codeword and separator with it |
| BpskOutputStreams.AppendSymbols | src/main/java/org/sdsai/dsp/BpskOutputStream.java:330-337 | an inner copy loop puts src into the array from index i on and keeps what was before |
| BpskOutputStreams.EncodedSizeSnoc | src/main/java/org/sdsai/dsp/BpskOutputStream.java:321 | the size sum over one more byte |
| BpskOutputStreams.EncodeSnoc | src/main/java/org/sdsai/dsp/BpskOutputStream.java:326-338 | the encoding of one more byte is the old one, then its codeword and the separator |
| BpskOutputStreams.WriteIntAsArray | src/main/java/org/sdsai/dsp/BpskOutputStream.java:303-306 | `write(int)` of a byte sends the same symbols as `write(byte[])` of that byte |
| BpskOutputStreams.SignedByteAsNul | src/main/java/org/sdsai/dsp/BpskOutputStream.java:286-297 | byte values 128..255 arrive as -128..-1, go out as NUL's codeword and come back as NUL |
| BpskOutputStreams.ZeroSkip | src/main/java/org/sdsai/dsp/BpskInputStream.java:319-321 | no codeword starts with 0, so `read()` drops a leading 0 without effect |
| BpskOutputStreams.Zeros | src/main/java/org/sdsai/dsp/BpskOutputStream.java:345-347 | n zero symbols |
| BpskOutputStreams.ZerosInvisible | src/main/java/org/sdsai/dsp/BpskInputStream.java:316-338 | any run of 0s in front changes nothing that is decoded |
| BpskOutputStreams.NoSeparatorSilent | src/main/java/org/sdsai/dsp/BpskInputStream.java:299-340 | symbols that hold no separator never yield a character: `read()` drops them all and returns -1 |
| BpskOutputStreams.PreambleInvisible | src/main/java/org/sdsai/dsp/BpskOutputStream.java:345-347 | the preamble decodes to nothing and leaves what follows decoding as before |
| BpskOutputStreams.PostambleSilent | src/main/java/org/sdsai/dsp/BpskOutputStream.java:349-351 | the postamble decodes to nothing |
| BpskOutputStreams.FrameDecodes | src/main/java/org/sdsai/dsp/BpskOutputStream.java:303-351 | preamble, the symbols `write` makes of the bytes, and postamble decode to the bytes: 0..127 as themselves, others as NUL |
| BpskInputStreams.FlattenSymbols | src/main/java/org/sdsai/dsp/BpskInputStream.java:376-385 | the symbol batches the detector emits are all 0 or 1 |
| BpskInputStreams.PendingAfterBatch | src/main/java/org/sdsai/dsp/BpskInputStream.java:243-259 | moving a batch from upstream into the buffer keeps the pending symbols |
| BpskInputStreams.BpskInputStream.Pending | src/main/java/org/sdsai/dsp/BpskInputStream.java:22-39 | the symbols not yet consumed, buffered then upstream, are all 0 or 1 |
| BpskInputStreams.BpskInputStream.constructor | src/main/java/org/sdsai/dsp/BpskInputStream.java:211-223 | a symbol buffer of 100, offset and fill 0, over the trie of `CHARSET`; every upstream symbol is pending |
| BpskInputStreams.BpskInputStream.CompactSymbolBuffer | src/main/java/org/sdsai/dsp/BpskInputStream.java:228-234 | the unread symbols move to the front in order, fill becomes fill - off, off becomes 0, and the pending symbols are unchanged |
| BpskInputStreams.BpskInputStream.WriteSymbol | src/main/java/org/sdsai/dsp/BpskInputStream.java:376-385 | the symbol is appended, the buffer first doubled when full |
| BpskInputStreams.BpskInputStream.GetSymbols | src/main/java/org/sdsai/dsp/BpskInputStream.java:243-259 | at the end of the audio stream -1 with nothing changed; otherwise the next batch is appended and its size returned; the pending symbols are unchanged |
| BpskInputStreams.BpskInputStream.BufferMaintenance | src/main/java/org/sdsai/dsp/BpskInputStream.java:274-293 | false exactly when no symbol is buffered, and then the audio stream is exhausted; fewer than LONGEST_CHARACTER + 2 buffered only at its end |
| BpskInputStreams.BpskInputStream.Consume | src/main/java/org/sdsai/dsp/BpskInputStream.java:321-333 | the offset advances by n and those n symbols stop being pending |
| BpskInputStreams.BpskInputStream.Read | src/main/java/org/sdsai/dsp/BpskInputStream.java:299-340 | the character and the symbols left are those one `read()` of the pending symbols gives; -1 only with nothing buffered and the audio stream ended |
| BpskInputStreams.BpskInputStream.ReadInto | src/main/java/org/sdsai/dsp/BpskInputStream.java:354-366 | up to len characters are stored from b[off] on until a -1; the count is returned, or -1 when len > 0 and the first `read()` returned -1 |
| BpskInputStreams.BpskInputStream.ReadStore | src/main/java/org/sdsai/dsp/BpskInputStream.java:357-362 | one pass: `read()` a character and, unless it is -1, store it after those stored so far |
| BpskInputStreams.BpskInputStream.ReadArray | src/main/java/org/sdsai/dsp/BpskInputStream.java:346-348 | `read(b, 0, b.length)` |
| BpskInputStreams.MatchAt | src/main/java/org/sdsai/dsp/BpskInputStream.java:319-338 | after `findChar`, a character followed by two 0s is returned with its symbols consumed; any other case skips symbols without changing what is decoded next |
| BpskInputStreams.ReadChars | src/main/java/org/sdsai/dsp/BpskInputStream.java:356-365 | the loop stores at most n characters |
| BpskInputStreams.ReadCharsDecodeAll | src/main/java/org/sdsai/dsp/BpskInputStream.java:356-365 | the characters read, then the decoding of what is left, are the decoding of the whole |
| BpskInputStreams.ReadCharsEncode | src/main/java/org/sdsai/dsp/BpskInputStream.java:354-366 | reading as many characters as bytes from what `write` made of them gives the bytes back |
| BpskInputStreams.ReadCharsStops | src/main/java/org/sdsai/dsp/BpskInputStream.java:358-360 | after a short read every further `read()` returns -1 |
| BpskInputStreams.ReadStep | src/main/java/org/sdsai/dsp/BpskInputStream.java:316-338 | each pass of the loop in `read()` either returns the character `NextChar` gives, consuming depth + 2 symbols, or skips one symbol without changing what is decoded next |
| BpskGenerators.Shift | src/main/java/org/sdsai/dsp/BpskGenerator.java:235-253 | the shift of every symbol is 0 or π |
| BpskGenerators.ShiftParity | src/main/java/org/sdsai/dsp/BpskGenerator.java:235-253 | symbol i goes out shifted by π exactly when an odd number of 0s follow the first symbol up to and including symbol i |
| BpskGenerators.ShiftIgnoresFirst | src/main/java/org/sdsai/dsp/BpskGenerator.java:238-242 | the first symbol is never read: the shifts depend on the others only |
| BpskGenerators.FirstInvalid | src/main/java/org/sdsai/dsp/BpskGenerator.java:240-257 | the first index from `from` on whose symbol is neither 0 nor 1, every symbol before it being 0 or 1; none when all are |
| BpskGenerators.SampleIsBytes | src/main/java/org/sdsai/dsp/BpskGenerator.java:171-172 | sample k of the buffer is v exactly when byte 2k is v's high byte and byte 2k + 1 its low byte |
| BpskGenerators.FadedIs | src/main/java/org/sdsai/dsp/BpskGenerator.java:182-188 | fading a stored sample v unpacks v itself and scales it by its coefficient |
| BpskGenerators.SameOutsideJoin | src/main/java/org/sdsai/dsp/BpskGenerator.java:179-190 | agreement outside two adjacent windows composes into agreement outside their union |
| BpskGenerators.FadedExtend | src/main/java/org/sdsai/dsp/BpskGenerator.java:180-189 | one more faded sample stored after a run of them keeps the run |
| BpskGenerators.Fade | src/main/java/org/sdsai/dsp/BpskGenerator.java:179-190 | samples sample, sample + 1, ... are unpacked, scaled by the coefficients in turn, cast to short and stored back; no other byte changes |
| BpskGenerators.Store | src/main/java/org/sdsai/dsp/BpskGenerator.java:171-172 | s is stored as sample k, high byte first, and nothing else changes |
| BpskGenerators.BpskGenerator.constructor | src/main/java/org/sdsai/dsp/BpskGenerator.java:98-115 | samplesPerSymbol = sampleRate / symbolsPerSecond, radians per sample hz·2π/sampleRate, currentSample 0, and the shaping coefficients sin(iπ/S) and cos(iπ/S) |
| BpskGenerators.BpskGenerator.ToneExtend | src/main/java/org/sdsai/dsp/BpskGenerator.java:165-174 | one more carrier sample stored after a run of them keeps the run |
| BpskGenerators.BpskGenerator.GenerateSymbol | src/main/java/org/sdsai/dsp/BpskGenerator.java:159-177 | one symbol of carrier at the given shift from sample on, currentSample advanced by samplesPerSymbol, nothing else written; returns the sample after it |
| BpskGenerators.BpskGenerator.FadeIn | src/main/java/org/sdsai/dsp/BpskGenerator.java:197-199 | half a symbol from sample on scaled by the fade-in coefficients |
| BpskGenerators.BpskGenerator.FadeOut | src/main/java/org/sdsai/dsp/BpskGenerator.java:206-208 | half a symbol from sample on scaled by the fade-out coefficients |
| BpskGenerators.BpskGenerator.KeepStaged | src/main/java/org/sdsai/dsp/BpskGenerator.java:240-258 | rewriting bytes past the samples of the symbols done keeps those samples |
| BpskGenerators.BpskGenerator.ToneIsRaw | src/main/java/org/sdsai/dsp/BpskGenerator.java:165-174 | symbol n's carrier, written from sample n·S on, is its unshaped signal |
| BpskGenerators.BpskGenerator.GainPlain | src/main/java/org/sdsai/dsp/BpskGenerator.java:252-254 | a symbol the loop does not shape leaves every coefficient as it was |
| BpskGenerators.BpskGenerator.GainFadeOut | src/main/java/org/sdsai/dsp/BpskGenerator.java:246 | a 0 symbol adds the fade-out coefficients over the second half of the symbol before it and changes nothing else |
| BpskGenerators.BpskGenerator.GainFadeIn | src/main/java/org/sdsai/dsp/BpskGenerator.java:250 | a 0 symbol fades in its own first half and leaves its second half unscaled |
| BpskGenerators.BpskGenerator.ExtendPlain | src/main/java/org/sdsai/dsp/BpskGenerator.java:238-253 | after a symbol the loop does not shape, its carrier joins the finished samples unchanged |
| BpskGenerators.BpskGenerator.FadeOutStep | src/main/java/org/sdsai/dsp/BpskGenerator.java:246 | the fade-out before a 0 symbol shapes the second half of the symbol before it |
| BpskGenerators.BpskGenerator.FadeInStep | src/main/java/org/sdsai/dsp/BpskGenerator.java:250 | the fade-in after a 0 symbol shapes its first half |
| BpskGenerators.BpskGenerator.FadeInSymbol | src/main/java/org/sdsai/dsp/BpskGenerator.java:248-250 | every sample of a 0 symbol after its fade-in is its carrier scaled as the loop says |
| BpskGenerators.BpskGenerator.FadeInFaded | src/main/java/org/sdsai/dsp/BpskGenerator.java:250 | a sample in the first half of a 0 symbol is its carrier scaled by the fade-in coefficient |
| BpskGenerators.BpskGenerator.FadeInPlain | src/main/java/org/sdsai/dsp/BpskGenerator.java:248 | a sample in the second half of a 0 symbol is its carrier as generated |
| BpskGenerators.BpskGenerator.StagedJoin | src/main/java/org/sdsai/dsp/BpskGenerator.java:240-258 | the samples of the symbols before one and of that one make the samples before the next |
| BpskGenerators.BpskGenerator.FinishStep | src/main/java/org/sdsai/dsp/BpskGenerator.java:260-264 | the final fade-in at 0 and fade-out at the last half symbol turn the loop's output into the finished signal |
| BpskGenerators.BpskGenerator.OutBetween | src/main/java/org/sdsai/dsp/BpskGenerator.java:260-264 | between the first and last half symbol the finished signal is what the loop left |
| BpskGenerators.BpskGenerator.OutHead | src/main/java/org/sdsai/dsp/BpskGenerator.java:261 | over the first half symbol the finished signal is the loop's output faded in |
| BpskGenerators.BpskGenerator.OutTail | src/main/java/org/sdsai/dsp/BpskGenerator.java:264 | over the last half symbol the finished signal is the loop's output faded out |
| BpskGenerators.BpskGenerator.PlainSymbol | src/main/java/org/sdsai/dsp/BpskGenerator.java:238-254 | the loop's step for the first symbol or a 1: its carrier at the current shift |
| BpskGenerators.BpskGenerator.ZeroSymbol | src/main/java/org/sdsai/dsp/BpskGenerator.java:243-251 | the loop's step for a 0: reverse the shift, fade out the half symbol before, generate the symbol, fade in its first half |
| BpskGenerators.BpskGenerator.ZeroSymbolCarrier | src/main/java/org/sdsai/dsp/BpskGenerator.java:248-250 | the symbol's carrier, then the fade-in over its first half |
| BpskGenerators.BpskGenerator.GenerateSignal | src/main/java/org/sdsai/dsp/BpskGenerator.java:222-267 | len 0: an empty array, currentSample unchanged; a symbol after the first that is not 0 or 1: IOException, with currentSample already advanced by the symbols before it; otherwise 2·len·S bytes whose sample i·S + pos is the shaped carrier of symbol i, big-endian, and currentSample advanced by len·S |
| BpskGenerators.BpskGenerator.Finish | src/main/java/org/sdsai/dsp/BpskGenerator.java:260-264 | the finished buffer holds the shaped signal of every symbol |
| BpskGenerators.BpskGenerator.GenerateAll | src/main/java/org/sdsai/dsp/BpskGenerator.java:210-212 | `generateSignal(symbols, 0, symbols.length)` |
| BpskGenerators.FirstInvalidAt | src/main/java/org/sdsai/dsp/BpskGenerator.java:255-257 | the symbol the loop throws on is the first invalid one |
| BpskGenerators.HalfBack | src/main/java/org/sdsai/dsp/BpskGenerator.java:246 | `(int)(sample - samplesPerSymbol / 2)` steps back the larger half of a symbol |
| BpskGenerators.HalfOfWhole | src/main/java/org/sdsai/dsp/BpskGenerator.java:107-108 | both shaping arrays have floor(samplesPerSymbol / 2) entries |
| BpskDetectors.ModIsWrap | src/main/java/org/sdsai/dsp/BpskDetector.java:189-190 | Java's `%` on the ring indices the check reads is a single wrap-around |
| BpskDetectors.CheckValues | src/main/java/org/sdsai/dsp/BpskDetector.java:187-196 | checkBuffer after the first loop: entry k is the 16-bit wrapped sum of sample k of the older half and sample k of the newer half, counted from the cursor |
| BpskDetectors.AmpSum | src/main/java/org/sdsai/dsp/BpskDetector.java:193 | the amplitude sum is never negative |
| BpskDetectors.Zeros | src/main/java/org/sdsai/dsp/BpskDetector.java:198-208 | the zeros counted over a range are at most its length, and none over an empty range |
| BpskDetectors.Written | src/main/java/org/sdsai/dsp/BpskDetector.java:164-170 | counting a sample and storing it at the cursor keeps the ring buffer well formed |
| BpskDetectors.ZerosSplit | src/main/java/org/sdsai/dsp/BpskDetector.java:198-211 | left zeros and right zeros together are at most the number of check values |
| BpskDetectors.StepProperties | src/main/java/org/sdsai/dsp/BpskDetector.java:162-231 | each sample keeps the state well formed, writes at most one symbol, only 0 or 1, only at a check, and never moves checkShift back |
| BpskDetectors.DecideProperties | src/main/java/org/sdsai/dsp/BpskDetector.java:211-230 | a 0 is written exactly when the zeros exceed half the check buffer; otherwise a 1 exactly when a whole symbol has been counted; the cursor and buffer are untouched and checkShift only grows |
| BpskDetectors.FoldSplit | src/main/java/org/sdsai/dsp/BpskDetector.java:162-232 | a per-sample loop over a + b is the loop over a, then over b from the state a left |
| BpskDetectors.RunProperties | src/main/java/org/sdsai/dsp/BpskDetector.java:162-232 | a run keeps the state well formed, writes at most one symbol per sample, only 0s and 1s, and never moves checkShift back |
| BpskDetectors.RunSplit | src/main/java/org/sdsai/dsp/BpskDetector.java:162-232 | running over a + b is running over a, then over b |
| BpskDetectors.RunSnoc | src/main/java/org/sdsai/dsp/BpskDetector.java:162-232 | running over xs + [x] is one more sample's step after running over xs |
| BpskDetectors.Samples | src/main/java/org/sdsai/dsp/BpskDetector.java:131-140 | len / 2 signed samples, sample i made of bytes off + 2i (high) and off + 2i + 1 (low) |
| BpskDetectors.Packed | src/main/java/org/sdsai/dsp/BpskGenerator.java:171-172 | the modulator's byte layout: each sample high byte first, two bytes per sample |
| BpskDetectors.SamplesOfPacked | src/main/java/org/sdsai/dsp/BpskDetector.java:131-140 | unpacking the bytes of packed samples gives those samples back |
| BpskDetectors.SamplesSplit | src/main/java/org/sdsai/dsp/BpskDetector.java:131-140 | the samples of an even-length prefix followed by those of the rest are the samples of the whole |
| BpskDetectors.DetectSplit | src/main/java/org/sdsai/dsp/BpskDetector.java:156-233 | audio handed over in two pieces split at an even offset writes the same symbols and leaves the same state as handing it over at once |
| BpskDetectors.BpskDetector.constructor | src/main/java/org/sdsai/dsp/BpskDetector.java:114-126 | samplesPerSymbol = (int)(sampleRate / symbolsPerSecond), a zeroed ring buffer of 2·samplesPerSymbol, a checkBuffer of samplesPerSymbol, cursor, count and checkShift 0 |
| BpskDetectors.BpskDetector.ConvertToSamples | src/main/java/org/sdsai/dsp/BpskDetector.java:131-140 | a fresh array of the samples of data[off .. off + len) |
| BpskDetectors.BpskDetector.Consume | src/main/java/org/sdsai/dsp/BpskDetector.java:163-231 | one pass of the loop: the new state and the symbols written are one step of the detector's machine |
| BpskDetectors.BpskDetector.Check | src/main/java/org/sdsai/dsp/BpskDetector.java:173-231 | the inversion check: checkBuffer holds the sums of the halves, the state and output are the machine's check, the cursor does not move |
| BpskDetectors.BpskDetector.Report | src/main/java/org/sdsai/dsp/BpskDetector.java:210-230 | the decision: its state and output are the machine's decision for these zero counts |
| BpskDetectors.BpskDetector.FillCheck | src/main/java/org/sdsai/dsp/BpskDetector.java:175-196 | checkBuffer holds the sums of the two halves and the result is the amplitude sum |
| BpskDetectors.BpskDetector.CountZeros | src/main/java/org/sdsai/dsp/BpskDetector.java:198-208 | the count of checkBuffer entries in [lo, hi) below the average amplitude |
| BpskDetectors.BpskDetector.DetectSignal | src/main/java/org/sdsai/dsp/BpskDetector.java:156-233 | the symbols written and the new state are the machine run over the samples of data[off .. off + len) |
| BpskDetectors.BpskDetector.DetectAll | src/main/java/org/sdsai/dsp/BpskDetector.java:267-269 | `detectSignal(data, 0, data.length)` |
| Goertzels.FeedAllSplit | src/main/java/org/sdsai/dsp/Goertzel.java:126-142 | a window fed to the recurrence over several `process` calls ends in the same state as one call over the whole window |
| Goertzels.ZeroWindow | src/main/java/org/sdsai/dsp/Goertzel.java:78-84 | an all-zero window leaves the recurrence at rest |
| Goertzels.FastResultAgrees | src/main/java/org/sdsai/dsp/Goertzel.java:91-103 | with coefficient 2·cos ω and cos² ω + sin² ω = 1, the fast squared magnitude equals real² + imaginary² of the full result |
| Goertzels.ZeroWindowResult | src/main/java/org/sdsai/dsp/Goertzel.java:91-103 | an all-zero window gives a zero real part, imaginary part and squared magnitude |
| Goertzels.GoertzelResult.constructor | src/main/java/org/sdsai/dsp/Goertzel.java:178-180 | a new result is zero |
| Goertzels.GoertzelResult.PhaseAsWritten | src/main/java/org/sdsai/dsp/Goertzel.java:185-208 | as written, the phase is NaN on the whole non-positive imaginary half-axis, and equals the corrected phase everywhere else |
| Goertzels.GoertzelResult.Phase | src/main/java/org/sdsai/dsp/Goertzel.java:185-208 | the phase is undefined exactly when both parts are zero (the imaginary-axis test corrected, see Findings) |
| Goertzels.GoertzelResult.Magnitude | src/main/java/org/sdsai/dsp/Goertzel.java:213-215 | given a square root, the magnitude is the non-negative number whose square is real² + imaginary² |
| Goertzels.FastResult.constructor | src/main/java/org/sdsai/dsp/Goertzel.java:221-225 | a new fast result holds zero |
| Goertzels.FastResult.Magnitude | src/main/java/org/sdsai/dsp/Goertzel.java:227-229 | given a square root and a non-negative squared magnitude, the magnitude is its non-negative root |
| Goertzels.Goertzel.constructor | src/main/java/org/sdsai/dsp/Goertzel.java:58-68 | the bin k is `(int)(0.5 + N·hz/sampleRate)`, ω = 2πk/N, the coefficient is 2·cos ω, and the detector starts at rest with an empty window |
| Goertzels.Goertzel.Reset | src/main/java/org/sdsai/dsp/Goertzel.java:108-113 | the recurrence is back at rest with an empty window |
| Goertzels.Goertzel.FeedSamples | src/main/java/org/sdsai/dsp/Goertzel.java:78-84 | the new recurrence state is the old one fed with samples[off .. off + len) |
| Goertzels.Goertzel.Absorb | src/main/java/org/sdsai/dsp/Goertzel.java:130-135 | a partial window: every sample given is appended to the window and the state stays that of the whole window |
| Goertzels.Goertzel.Complete | src/main/java/org/sdsai/dsp/Goertzel.java:137-139 | the last N - n samples complete the window and the state is that of the full window |
| Goertzels.Goertzel.Process | src/main/java/org/sdsai/dsp/Goertzel.java:126-142 | fewer samples than the window needs: all are taken, -1 returned and the result untouched; otherwise exactly N - n are taken, the result holds the real and imaginary parts of the full window, and the detector is reset |
| Goertzels.Goertzel.ProcessFast | src/main/java/org/sdsai/dsp/Goertzel.java:157-173 | the same counting, with the result holding the squared magnitude of the full window |
| Sums.SumAppend | src/main/java/org/sdsai/dsp/MovingAverageFilter.java:55-59 | the sum of a concatenation is the sum of the parts |
| Sums.SumUpdate | src/main/java/org/sdsai/dsp/MovingAverageFilter.java:55-59 | replacing one sample changes the sum by the new value minus the old one, which is how `partialResult` is kept |
| Sums.SumConstant | src/main/java/org/sdsai/dsp/MovingAverageFilter.java:68 | n copies of c add up to n·c |
| MovingAverageFilters.HalfCycle | src/main/java/org/sdsai/dsp/MovingAverageFilter.java:46 | the window size `(int)(Math.floor(sampleRate / hz / 2))` is the whole number of samples in half a cycle of hz |
| MovingAverageFilters.MeanOfConstant | src/main/java/org/sdsai/dsp/MovingAverageFilter.java:68 | when the last n inputs were all c, their mean is c |
| MovingAverageFilters.RotateSum | src/main/java/org/sdsai/dsp/MovingAverageFilter.java:55-59 | reading the ring from any slot adds up the same samples |
| MovingAverageFilters.RingStep | src/main/java/org/sdsai/dsp/MovingAverageFilter.java:58-65 | overwriting the oldest slot and advancing the cursor drops the oldest sample from the window and appends the new one |
| MovingAverageFilters.LastStep | src/main/java/org/sdsai/dsp/MovingAverageFilter.java:52-69 | the last n inputs after one more are the previous last n without their oldest, then the new one |
| MovingAverageFilters.ProcessStep | src/main/java/org/sdsai/dsp/MovingAverageFilter.java:52-69 | one `process` keeps partialResult the sum of the ring and the ring, read from the cursor, the last n inputs |
| MovingAverageFilters.MovingAverageFilter.constructor | src/main/java/org/sdsai/dsp/MovingAverageFilter.java:28-32 | a window of n zeros, partialResult 0, current 0 |
| MovingAverageFilters.MovingAverageFilter.FromFrequency | src/main/java/org/sdsai/dsp/MovingAverageFilter.java:45-47 | a window of zeros half a cycle of hz long, partialResult 0, current 0 |
| MovingAverageFilters.MovingAverageFilter.Process | src/main/java/org/sdsai/dsp/MovingAverageFilter.java:52-69 | only samples[current] changes, to data; current advances by one and wraps to 0; the result is the mean of the last n inputs, zeros standing in for inputs not yet seen |
| Convolutions.ToShortAdd | src/main/java/org/sdsai/dsp/Convolution.java:29 | wrapping each partial sum to 16 bits, as the short compound assignment does, gives the same result as wrapping once at the end |
| Convolutions.ConvSupport | src/main/java/org/sdsai/dsp/Convolution.java:27-31 | outputs outside [0, \|x\| + \|h\| - 2] receive no product |
| Convolutions.ConvCommutes | src/main/java/org/sdsai/dsp/Convolution.java:149-156 | convolution is commutative: swapping the signal and the kernel gives the same outputs |
| Convolutions.Convolve | src/main/java/org/sdsai/dsp/Convolution.java:16-32 | y[k] ends as the 16-bit wrap of its old value plus output k - x_off - h_off of the convolution of the two slices; entries outside [x_off + h_off, x_off + x_len + h_off + h_len - 2] keep their values; y_off is never read |
| Convolutions.AccumulateRow | src/main/java/org/sdsai/dsp/Convolution.java:28-30 | one pass of the outer loop adds the products of x[x_i] with every kernel entry |
| Convolutions.RowsDone | src/main/java/org/sdsai/dsp/Convolution.java:27-31 | with every row added, each entry holds its whole output and entries no product reaches are untouched |
| Convolutions.RowStart | src/main/java/org/sdsai/dsp/Convolution.java:28 | a row starts with none of its products added |
| Convolutions.RowEnd | src/main/java/org/sdsai/dsp/Convolution.java:28-30 | a finished row has added the whole contribution of x[x_i] |
| Convolutions.AccumulateStep | src/main/java/org/sdsai/dsp/Convolution.java:29 | one pass of the inner loop adds x[x_i]·h[h_i] into y[x_i + h_i] as a short |
| Convolutions.ConvolveSignalRange | src/main/java/org/sdsai/dsp/Convolution.java:45-55 | delegates with the whole kernel: h_off 0, h_len h.length |
| Convolutions.ConvolveKernelRange | src/main/java/org/sdsai/dsp/Convolution.java:68-78 | delegates with the whole signal: x_off 0, x_len x.length |
| Convolutions.ConvolveWhole | src/main/java/org/sdsai/dsp/Convolution.java:89-97 | delegates with both arrays whole |
| Convolutions.ConvolveSignalRangeAtStart | src/main/java/org/sdsai/dsp/Convolution.java:109-118 | delegates with the whole kernel and y_off 0 |
| Convolutions.ConvolveKernelRangeAtStart | src/main/java/org/sdsai/dsp/Convolution.java:130-139 | delegates with the whole signal and y_off 0 |
| Convolutions.ConvolveWholeAtStart | src/main/java/org/sdsai/dsp/Convolution.java:149-156 | both arrays whole; every output is the same as with x and h swapped |
| ConvolutionFilters.Linear | src/main/java/org/sdsai/dsp/filters/ConvolutionFilter.java:74-90 | the linear convolution of a block with a kernel of K taps has block length + K - 1 outputs |
| ConvolutionFilters.LinearAppend | src/main/java/org/sdsai/dsp/filters/ConvolutionFilter.java:110-119 | convolution is linear over concatenation: the second part's outputs are delayed by the first part's length |
| ConvolutionFilters.LinearSupport | src/main/java/org/sdsai/dsp/filters/ConvolutionFilter.java:74-90 | outputs before 0 and from \|x\| + K - 1 on are zero |
| ConvolutionFilters.LinearOfEmpty | src/main/java/org/sdsai/dsp/filters/ConvolutionFilter.java:59 | convolving nothing gives the K - 1 zeros the overlap starts as |
| ConvolutionFilters.Circular | src/main/java/org/sdsai/dsp/filters/ConvolutionFilter.java:82-90 | the circular convolution of two equal-length arrays keeps their length |
| ConvolutionFilters.CircularIsLinear | src/main/java/org/sdsai/dsp/filters/ConvolutionFilter.java:74-90 | a block of s samples and a kernel of k taps, both zero-padded to s + k - 1, have a circular convolution equal to their linear convolution: nothing wraps around |
| ConvolutionFilters.FilterBlock | src/main/java/org/sdsai/dsp/filters/ConvolutionFilter.java:95-107 | one block keeps the block's length and the overlap's length |
| ConvolutionFilters.AddPrefix | src/main/java/org/sdsai/dsp/filters/ConvolutionFilter.java:95-97 | adding the overlap into the front keeps the length |
| ConvolutionFilters.FilterBlockExtends | src/main/java/org/sdsai/dsp/filters/ConvolutionFilter.java:95-107 | if the outputs so far followed by the overlap are the convolution of the input so far, after one more block they are the convolution of the input extended by that block |
| ConvolutionFilters.Stream | src/main/java/org/sdsai/dsp/filters/ConvolutionFilter.java:69-108 | successive calls keep the overlap's length |
| ConvolutionFilters.StreamExtends | src/main/java/org/sdsai/dsp/filters/ConvolutionFilter.java:110-119 | the overlap-add invariant carries over any number of blocks |
| ConvolutionFilters.StreamIsConvolution | src/main/java/org/sdsai/dsp/filters/ConvolutionFilter.java:110-119 | the outputs of successive `filter` calls on a fresh filter, followed by the final overlap, are the linear convolution of the whole input |
| ConvolutionFilters.LinearOfSix | src/main/java/org/sdsai/dsp/filters/ConvolutionFilter.java:74-90 | output t of a six-sample convolution, written out term by term |
| ConvolutionFilters.BookExample | src/test/java/org/sdsai/dsp/filters/ConvolutionFilterTest.java:96-117 | kernel {1, 2, 1} has dftSize 4 and sampleCount 6, and the block {1, ..., 6} gives {1, 4, 8, 12, 16, 20} with overlap {17, 6} |
| ConvolutionFilters.SmallestPowerAtLeast | src/main/java/org/sdsai/dsp/filters/ConvolutionFilter.java:41-42 | a power of two at least K whose half is below K is the smallest such power |
| ConvolutionFilters.DftSizeFor | src/main/java/org/sdsai/dsp/filters/ConvolutionFilter.java:41-42 | the loop ends at a power of two at least K whose half is below K (or 1) |
| ConvolutionFilters.MultiplyBins | src/main/java/org/sdsai/dsp/filters/ConvolutionFilter.java:84-88 | every bin becomes the complex product of its old value and the kernel's bin |
| ConvolutionFilters.CopyRange | src/main/java/org/sdsai/dsp/filters/ConvolutionFilter.java:77-79 | the copy puts src[srcOff ..] into dst[dstOff ..] for len entries and leaves the rest of dst alone |
| ConvolutionFilters.OverlapAdd | src/main/java/org/sdsai/dsp/filters/ConvolutionFilter.java:95-97 | the carried overlap is added into the front of the work array and the rest is unchanged |
| ConvolutionFilters.ConvolutionFilter.constructor | src/main/java/org/sdsai/dsp/filters/ConvolutionFilter.java:37-60 | dftSize is the smallest power of two at least K, the taps are the kernel's, sampleCount = 2·dftSize - (K - 1) > K - 1, and the overlap is K - 1 zeros |
| ConvolutionFilters.ConvolutionFilter.ConvolveBlock | src/main/java/org/sdsai/dsp/filters/ConvolutionFilter.java:74-90 | the padded block through transform, bin product and inverse transform is its linear convolution with the kernel |
| ConvolutionFilters.ConvolutionFilter.Filter | src/main/java/org/sdsai/dsp/filters/ConvolutionFilter.java:69-108 | a block whose length is not sampleCount is refused with IllegalArgumentException and nothing changed; otherwise it becomes the block's outputs with the old overlap added and the overlap becomes what spills past it |
| FilterKernels.KernelLength | src/main/java/org/sdsai/dsp/filters/FilterKernelFactory.java:25 | the factory's size `(int)(sampleRate / hz / 2)` is the whole number of samples in half a cycle of hz, never negative |
| FilterKernels.Factory.LowPassKernel | src/main/java/org/sdsai/dsp/filters/FilterKernelFactory.java:22-40 | a low-pass kernel whose getSize is `(int)(sampleRate / hz / 2)` |
| FilterKernels.Factory.HighPassKernel | src/main/java/org/sdsai/dsp/filters/FilterKernelFactory.java:42-58 | a high-pass kernel at hz and the factory's sample rate whose getSize is `(int)(sampleRate / hz / 2)` |
| FilterKernels.Taps | src/main/java/org/sdsai/dsp/filters/FilterKernelRaw.java:18-21 | the kernel's coefficients number getSize() |
| FilterKernels.Applied | src/main/java/org/sdsai/dsp/filters/FilterKernelFactory.java:33-38 | `apply` keeps the buffer's length |
| FilterKernels.AppliedRegions | src/main/java/org/sdsai/dsp/filters/FilterKernelFactory.java:33-38 | `apply` writes the kernel's coefficients into buffer[0 .. getSize()) and leaves the rest alone, except that a low-pass kernel of size 0 still writes 2 into buffer[0] |
| FilterKernels.ApplyIdempotent | src/main/java/org/sdsai/dsp/filters/FilterKernelRaw.java:30-35 | applying a kernel twice leaves the buffer as applying it once |
| FilterKernels.Apply | src/main/java/org/sdsai/dsp/filters/FilterKernelRaw.java:30-35 | the buffer becomes its applied form: h copied in for a raw kernel, -0.1 then 2 in the middle for low-pass, half a cycle of a unit sine from sample 0 for high-pass (FilterKernelFactory.java:33-38, 53-56); a raw kernel's h is never written |
| FftFilterStreams.FloorOfMultiple | src/main/java/org/sdsai/dsp/FftFilterStream.java:40-58 | whole blocks that cover the length up to less than one more block number length / block size |
| FftFilterStreams.WholeIsProduct | src/main/java/org/sdsai/dsp/FftFilterStream.java:51 | adding one block length per full block counts the blocks times the block length |
| FftFilterStreams.InPlaceBlock | src/main/java/org/sdsai/dsp/FftFilterStream.java:45-55 | a full block filtered and copied back over itself moves the progress of `apply` on by that block |
| FftFilterStreams.InPlaceWaiting | src/main/java/org/sdsai/dsp/FftFilterStream.java:42 | a last partial block taken into the empty buffer is what waits there, in order |
| FftFilterStreams.InPlaceStep | src/main/java/org/sdsai/dsp/FftFilterStream.java:42-57 | a pass from the empty buffer, full block or last samples, moves the progress of `apply` on by what it wrote back and what it left waiting |
| FftFilterStreams.FftFilterStream.constructor | src/main/java/org/sdsai/dsp/FftFilterStream.java:22-25 | the stream starts open over the filter, with a zeroed buffer of the filter's block length and nothing in it |
| FftFilterStreams.FftFilterStream.SetFilter | src/main/java/org/sdsai/dsp/FftFilterStream.java:155-159 | a new zeroed buffer of filter.sampleCount(), with bufferFill 0 |
| FftFilterStreams.FftFilterStream.Write | src/main/java/org/sdsai/dsp/FftFilterStream.java:104-130 | closed, or results waiting: IOException with nothing changed; length 0: returns 0 with nothing changed; otherwise min(length, room) samples are appended in order and counted, and the write that fills the buffer replaces it by the filter's outputs |
| FftFilterStreams.FftFilterStream.WriteSome | src/main/java/org/sdsai/dsp/FftFilterStream.java:118-129 | an accepted write appends min(length, room) samples, returns that count, and runs the filter once the buffer is full |
| FftFilterStreams.FftFilterStream.Append | src/main/java/org/sdsai/dsp/FftFilterStream.java:118-123 | the samples land right after the filled part of the buffer and bufferFill grows by their number |
| FftFilterStreams.FftFilterStream.WriteAll | src/main/java/org/sdsai/dsp/FftFilterStream.java:84-86 | `write(samples, 0, samples.length)` |
| FftFilterStreams.FftFilterStream.WriteFront | src/main/java/org/sdsai/dsp/FftFilterStream.java:88-90 | `write(samples, 0, length)` |
| FftFilterStreams.FftFilterStream.WriteSample | src/main/java/org/sdsai/dsp/FftFilterStream.java:79-82 | fails with IOException exactly when closed or results are waiting, changing nothing; otherwise the sample is appended and bufferFill grows by one; if that fills the buffer, the filter runs over the filled block, so the buffer holds its outputs, the overlap is the new tail, and the filter has consumed the block and emitted the buffer; if not, the filter is unchanged |
| FftFilterStreams.FftFilterStream.ApplyBlock | src/main/java/org/sdsai/dsp/FftFilterStream.java:42-55 | one pass of the loop: a closed stream fails with nothing changed; otherwise a full block is filtered and copied back over the same samples, the filter having consumed the block and emitted what was copied, the buffer left empty and the rest of samples untouched; fewer than a block stay waiting in the buffer with the samples and the filter untouched |
| FftFilterStreams.PassAsWritten | src/main/java/org/sdsai/dsp/FftFilterStream.java:42-56 | one pass of `apply` from a buffer holding fill samples takes between 1 and the rest of the samples, never more than the buffer has room for, and copies back a whole block exactly when the pass fills the buffer, nothing otherwise |
| FftFilterStreams.PassOverruns | src/main/java/org/sdsai/dsp/FftFilterStream.java:45-50 | from a buffer already holding fill > 0 samples, a pass that fills it copies fill more outputs than the samples it took, past its window whenever the rest is shorter than a block |
| FftFilterStreams.PassOverrunExample | src/main/java/org/sdsai/dsp/FftFilterStream.java:45-50 | a block of 4 with 2 samples waiting, applied to 3 samples, takes 2 and copies 4, more than the 3 it was given |
| FftFilterStreams.PassFromEmpty | src/main/java/org/sdsai/dsp/FftFilterStream.java:42-56 | from an empty buffer a pass copies back nothing or exactly the samples it took, so it stays inside its window |
| FftFilterStreams.FftFilterStream.Apply | src/main/java/org/sdsai/dsp/FftFilterStream.java:36-61 | from an empty buffer: a length that is not positive returns 0 and a closed stream IOException, both with nothing changed; otherwise every whole block of samples[start .. start + length) is replaced by its filtered outputs, the number of those (length rounded down to whole blocks) is returned, and the rest waits in the buffer |
| FftFilterStreams.FftFilterStream.ApplyLoop | src/main/java/org/sdsai/dsp/FftFilterStream.java:38-60 | the loop keeps the progress invariant, and ends with whole blocks done, fewer than a block waiting, and the count returned |
| FftFilterStreams.FftFilterStream.ApplyStep | src/main/java/org/sdsai/dsp/FftFilterStream.java:42-57 | one pass moves the progress on by a full block, or by the last samples, which then wait in the buffer |
| FftFilterStreams.FftFilterStream.ApplyFront | src/main/java/org/sdsai/dsp/FftFilterStream.java:63-65 | `apply(samples, 0, length)` |
| FftFilterStreams.FftFilterStream.ApplyAll | src/main/java/org/sdsai/dsp/FftFilterStream.java:67-69 | `apply(samples, 0, samples.length)` |
| FftFilterStreams.FftFilterStream.Reset | src/main/java/org/sdsai/dsp/FftFilterStream.java:143-146 | bufferFill becomes 0, the buffer's contents stay, and the buffer itself is returned |
| FftFilterStreams.FftFilterStream.Close | src/main/java/org/sdsai/dsp/FftFilterStream.java:173-182 | the filter's overlap is copied into the front of the buffer, the rest is unchanged, and bufferFill is the overlap's length, so no results are reported available |
| DspUtils.PhaseAsWritten | src/main/java/org/sdsai/dsp/DspUtils.java:16-39 | as written, the phase is NaN on the whole non-positive imaginary half-axis, and agrees with the corrected phase everywhere else |
| DspUtils.PhaseNegativeImaginaryAxis | src/main/java/org/sdsai/dsp/DspUtils.java:32-33 | at real 0, imaginary -1 the code as written gives NaN where the corrected branch gives -π/2 |
| DspUtils.Phase | src/main/java/org/sdsai/dsp/DspUtils.java:16-39 | NaN exactly at the origin; given an arctangent, the angle lies in (-π, π], is positive exactly above the real axis or on its negative half, and negative exactly below it |
| DspUtils.Magnitude | src/main/java/org/sdsai/dsp/DspUtils.java:49-51 | given a square root, the non-negative number whose square is real² + imaginary² |
| DspUtils.MagnitudeBounds | src/main/java/org/sdsai/dsp/DspUtils.java:49-51 | the magnitude is at least the absolute value of each component |
| DspUtils.DftDc | src/main/java/org/sdsai/dsp/DspUtils.java:67-72 | bin 0 is the plain sum of the samples and has no sine part |
| DspUtils.Dft | src/main/java/org/sdsai/dsp/DspUtils.java:60-73 | every bin k below re_x.length gains the cosine sum of the first N samples at angle 2πkn/samples.length, and im_x[k] loses the sine sum; other im_x entries are untouched; when re_x and im_x are the same array, each bin gains the cosine sum and loses the sine sum |
| DspUtils.DftBin | src/main/java/org/sdsai/dsp/DspUtils.java:68-71 | one pass of the inner loop changes bin x only, by that bin's cosine and sine sums, with the two updates landing on the same element when the arrays are one |
| DspUtils.Rev | src/main/java/org/sdsai/dsp/DspUtils.java:76-89 | the b-bit reversal of t is again below 2^b |
| DspUtils.AdvanceIsReversedIncrement | src/main/java/org/sdsai/dsp/DspUtils.java:84-88 | the inner loop turns j = 2·Rev(t) + 1 into 2·Rev(t + 1) + 1: a bit-reversed increment |
| DspUtils.SwapPermutes | src/main/java/org/sdsai/dsp/DspUtils.java:77-81 | an exchange keeps the multiset of elements |
| DspUtils.Partners | src/main/java/org/sdsai/dsp/DspUtils.java:76-89 | the partner of odd position 2u + 1 is 2·Rev(u) + 1, for every u below 2^b |
| DspUtils.PartnerTable | src/main/java/org/sdsai/dsp/DspUtils.java:76 | an n-element sort has one partner per odd position, all odd |
| DspUtils.ExchangedPermutes | src/main/java/org/sdsai/dsp/DspUtils.java:77-81 | any prefix of the exchanges only moves elements around |
| DspUtils.ExchangedKeepsEven | src/main/java/org/sdsai/dsp/DspUtils.java:76 | no exchange touches an even position |
| DspUtils.BitReversedPermutes | src/main/java/org/sdsai/dsp/DspUtils.java:75-90 | the exchange loop of `bitReversalSort` is a permutation that leaves every even position in place |
| DspUtils.BitReversalSort | src/main/java/org/sdsai/dsp/DspUtils.java:75-90 | the array after the loop is `BitReversed` of the array before it: odd positions 2t + 1 and 2·Rev(t) + 1 trade places, with Rev the reversal of log2(n/2) bits, and no even position moves |
| DspUtils.BitReversedFour | src/main/java/org/sdsai/dsp/DspUtils.java:75-90 | as written, the loop leaves any 4 samples as they are |
| DspUtils.PartnerTableEight | src/main/java/org/sdsai/dsp/DspUtils.java:76-89 | on 8 samples the loop's j visits partners 1, 5, 3 and 7 for positions 1, 3, 5 and 7 |
| DspUtils.BitReversedEight | src/main/java/org/sdsai/dsp/DspUtils.java:75-90 | as written, the loop on 8 samples exchanges only positions 3 and 5 |
| DspUtils.RevHigh | src/main/java/org/sdsai/dsp/DspUtils.java:75-90 | setting the high bit of a number sets the low bit of its reversal, the rest reversed one bit shorter |
| DspUtils.RevInvolution | src/main/java/org/sdsai/dsp/DspUtils.java:75-90 | reversing the bits of a number twice gives it back |
| DspUtils.ReversalSwaps | src/main/java/org/sdsai/dsp/DspUtils.java:75-90 | the corrected sort, exchanging every position k with Rev(k) when Rev(k) lies beyond k, only moves elements around |
| DspUtils.RevTableSelfInverse | src/main/java/org/sdsai/dsp/DspUtils.java:75-90 | the table of b-bit reversals pairs positions up: the partner of a partner is the position itself |
| DspUtils.ReversalSwapsProgress | src/main/java/org/sdsai/dsp/DspUtils.java:75-90 | after t steps of the corrected sort, position k holds sample Rev(k) exactly when k or Rev(k) is below t, and its own sample otherwise |
| DspUtils.BitReversalIsReversal | src/main/java/org/sdsai/dsp/DspUtils.java:75-90 | the corrected sort puts sample Rev(k) at position k, with Rev the reversal of log2 n bits |
| DspUtils.BitReversalInvolution | src/main/java/org/sdsai/dsp/DspUtils.java:75-90 | the corrected sort is a permutation, and sorting twice gives the input back |
| DspUtils.BitReversalEight | src/main/java/org/sdsai/dsp/DspUtils.java:75-90 | the corrected sort of 8 samples exchanges 1 with 4 and 3 with 6 |
| DspUtils.ExchangeStep | src/main/java/org/sdsai/dsp/DspUtils.java:77-81 | one step's exchange: positions i and j trade places when j lies beyond i |
| DspUtils.ReversedIncrement | src/main/java/org/sdsai/dsp/DspUtils.java:83-88 | the inner loop computes Advance, the bit-reversed increment of the current partner (AdvanceIsReversedIncrement) |
| DspUtils.PartnerChain | src/main/java/org/sdsai/dsp/DspUtils.java:76-89 | j starts at partner 1 and each pass of the inner loop carries it to the next partner in the table |
| DspUtils.ExchangeLoop | src/main/java/org/sdsai/dsp/DspUtils.java:77-89 | the outer loop, over any partner table that the inner loop walks from 1, performs exactly the table's exchanges |
| FastFourier.TwiddleIsRotation | src/main/java/org/sdsai/dsp/DspUtils.java:106-126 | where cos and sin obey the angle-addition formulas, the sinusoid after j columns of complex multiplication is (cos jθ, -sin jθ) |
| FastFourier.RotationStep | src/main/java/org/sdsai/dsp/DspUtils.java:124-126 | one advance of the sinusoid composes two rotations into the rotation by the sum of the angles |
| FastFourier.Col | src/main/java/org/sdsai/dsp/DspUtils.java:113-114 | every position's column, which picks its sinusoid, is below segment |
| FastFourier.StagePairs | src/main/java/org/sdsai/dsp/DspUtils.java:113-121 | each stage pairs every index exactly once: the partner is in bounds, distinct, pairs back, and shares the pair's column |
| FastFourier.Stage | src/main/java/org/sdsai/dsp/DspUtils.java:113-127 | the stage keeps the length and puts at every position the lower or upper butterfly output of its pair |
| FastFourier.Stages | src/main/java/org/sdsai/dsp/DspUtils.java:103-134 | the stages, from half-width segment on while the stride fits, keep the length |
| FastFourier.Fft | src/main/java/org/sdsai/dsp/DspUtils.java:98-135 | the transform keeps the length of both parts |
| FastFourier.StageOfZero | src/main/java/org/sdsai/dsp/DspUtils.java:113-121 | silence is a fixed point of every stage |
| FastFourier.StagesOfZero | src/main/java/org/sdsai/dsp/DspUtils.java:103-134 | the stages of silence give silence |
| FastFourier.Transform | src/main/java/org/sdsai/dsp/DspUtils.java:98-135 | the arrays end as the transform of their old contents: the real part put through `bitReversalSort` as written (`DspUtils.BitReversed`), then every stage |
| FastFourier.StagesStep | src/main/java/org/sdsai/dsp/DspUtils.java:132-133 | one stage taken and the segment doubled leaves the same remaining transform |
| FastFourier.RunStage | src/main/java/org/sdsai/dsp/DspUtils.java:106-127 | one pass of the outer loop turns the arrays into the stage of their old contents |
| FastFourier.StageIsPairs | src/main/java/org/sdsai/dsp/DspUtils.java:113-121 | the stage holds the butterfly of every pair |
| FastFourier.PairsDetermine | src/main/java/org/sdsai/dsp/DspUtils.java:113-121 | any signal holding every butterfly of the stage is the stage, since every position belongs to one pair |
| FastFourier.RunColumn | src/main/java/org/sdsai/dsp/DspUtils.java:114-121 | the inner loop over column j carries every position of that column to its stage value and leaves later columns alone |
| FastFourier.RunPair | src/main/java/org/sdsai/dsp/DspUtils.java:115-120 | one butterfly moves both positions of its pair to their stage values and nothing else |
| FastFourier.StageAtPair | src/main/java/org/sdsai/dsp/DspUtils.java:114-120 | the stage holds the butterfly of the pair starting at i1 |
| FastFourier.Butterfly | src/main/java/org/sdsai/dsp/DspUtils.java:115-120 | positions i1 and i2 take the butterfly's short-cast outputs and no other position changes |

## Left out

- Audio I/O is not modelled: `getAudioFormat`, javax.sound playback and `.wav` files. `BpskOutputStream` records the symbol arrays it hands to the modulator instead of writing audio.
- BpskInputStream's upstream reads (`in.read(dataBuffer)` through the detector) become a parameter: the sequence of symbol batches those reads yield, ending in end-of-data. Sizing by the audio frame size is not modelled.
- Floating point is not modelled: doubles are exact reals, so rounding, NaN propagation and infinities are not captured. The model does not cover Goertzel selectivity, FFT/IFFT inversion or filter frequency response, because those are numerical behaviour.
- `Math.sin`, `Math.cos`, `Math.atan` and `Math.sqrt` are parameters. Only the facts named above are assumed about them.
- `DspUtils.fft(double[], double[])`, `ifft` and `fftIdxToHz` are not part of this model. In `ConvolutionFilter.filter`, the forward transform, bin product and inverse transform are taken together as the exact circular convolution of the two padded arrays. The imaginary working array and `kreal`/`kimg` are therefore not modelled. `ConvolutionFilters.MultiplyBins` states the complex bin product on its own.
- `FftFilter.java` is a stub without the `sampleCount()` and `getOverlap()` that `FftFilterStream` calls, so the stream runs over `ConvolutionFilter`, which has both.
- `generateTone` in `BpskGenerator` is private and never called, so it is not modelled. The `Alphabet` comment block is documentation: it is used only to cross-check the table (see Findings).
- Trivial getters are read as fields: `sampleCount`, `getOverlap`, `getBuffer`, `getBufferFill`, `getFilter`, `getSymbolRate` and `getBufferSize`. `getSize()` of the kernels is the function `FilterKernels.Size`. `resultsAvailable()` is the predicate `FftFilterStreams.FftFilterStream.ResultsAvailable` (bufferFill equals the buffer length), which the `write`, `write(double)` and `close` contracts use.
- The formulas of the two `setResult` methods (Goertzel.java:91-94 and 101-103) are the contract-free functions `Goertzels.RealPart`, `Goertzels.ImaginaryPart` and `Goertzels.MagnitudeSquared`. Their properties are stated by `Goertzels.FastResultAgrees` and `Goertzels.ZeroWindowResult`, and `Goertzels.Goertzel.Process` and `ProcessFast` store them.
- Long-run overflow is not modelled: `long currentSample` and the `int` fields `sampleCount`, `checkShift` and Goertzel's `n` are unbounded integers.
- `detectSignal(data, off, len)`'s `null` return on `IOException` is not modelled: the symbols go to a byte array stream, which never throws.
- BpskGenerators.BpskGenerator.constructor: requires the sample rate to be a whole multiple of the symbol rate, with at least 2 samples per symbol, so samplesPerSymbol is an integer. At the default 44100 Hz and 31.25 symbols per second, the source's double 1411.2 is not modelled.
- BpskDetectors.BpskDetector.constructor: requires at least one sample per symbol. With zero, the source's `% buffer.length` divides by zero.
- Goertzels.Goertzel.constructor: requires N ≥ 1 and a non-zero sample rate, which the source does not check.
- Goertzels.Goertzel.Process: requires len ≥ 0. A negative len in the source would move `n` backwards. The same holds for `ProcessFast`.
- SignalGenerators.SignalGenerator.constructor: requires a non-zero sample rate, as do `WithAmplitude` and `Tune`.
- MovingAverageFilters.MovingAverageFilter.Process: requires a window of at least one sample. A window of 0 indexes out of bounds in the source.
- FastFourier.Transform: only for power-of-two lengths, as is `DspUtils.BitReversalSort`. Other lengths leave the butterflies' index schedule undefined.
- FastFourier.Transform: requires that the real and imaginary arrays are distinct. The source accepts one array passed as both, and then each butterfly's real and imaginary writes land on the same element; the model does not capture that result.
- DspUtils.Dft: requires N ≤ samples.length and im_x at least as long as re_x whenever a bin is computed. Otherwise the source throws `ArrayIndexOutOfBoundsException` part-way through, with some bins already updated; that partial update is not modelled.
- Convolutions.Convolve: offsets and lengths are natural numbers, and `y` may not be the same array as `x` or `h`.
- FilterKernels.KernelLength: requires hz > 0 and a non-negative sample rate. A high-pass kernel also needs a positive sample rate for its generator.
- MovingAverageFilters.MovingAverageFilter.constructor: requires n ≥ 0. A negative size throws `NegativeArraySizeException` in the source.
- MovingAverageFilters.MovingAverageFilter.FromFrequency: requires hz > 0 and a non-negative sample rate. A negative hz gives a negative size and `NegativeArraySizeException`, and hz = 0 gives `Integer.MAX_VALUE` after the cast and an allocation that fails.
- ConvolutionFilters.ConvolutionFilter.constructor: requires a kernel of at least one tap.
- FftFilterStreams.FftFilterStream.Apply: requires an empty buffer on entry, and requires that `samples` is neither the stream's buffer nor the filter's overlap. From a non-empty buffer, the source copies a whole block of outputs over samples it never took, past the caller's window when fewer than a block remain, and counts them as written (see Findings). `FftFilterStreams.PassAsWritten` and `FftFilterStreams.PassOverruns` state that pass only as indices, not its effect on the arrays.
- FftFilterStreams.FftFilterStream.Write: requires length ≥ 0, and requires that `samples` is not the stream's buffer. With a negative length the source takes samplesToWrite = length, copies nothing and moves `bufferFill` below 0, so later writes index the buffer below 0; that state is not modelled.
- BpskInputStreams.BpskInputStream.ReadInto: requires that the caller's array is not the symbol buffer. The same holds for `ReadArray`.
- DspUtils.MagnitudeBounds: does not state that the magnitude is 0 exactly for a zero input.

## Findings

| source | as written | input that shows it | evidently intended | confidence | as-written member | corrected member |
|---|---|---|---|---|---|---|
| src/main/java/org/sdsai/dsp/BpskOutputStream.java:206 | `CHARSET[93]`, the codeword of `]`, is `1111110111` | byte 0x5D (`]`) | `111111011`, the PSK31 Varicode for `]` given in the alphabet comment at src/main/java/org/sdsai/dsp/BpskGenerator.java:381 | not executed | Varicode.BracketAsWritten | Varicode.CorrectedCharsetValid |
| src/main/java/org/sdsai/dsp/DspUtils.java:32 | with real == 0, the second test repeats `imaginary > 0`, so the −π/2 branch is never taken and a negative imaginary part gives NaN | real 0, imaginary −1 | −π/2 for real 0 and a negative imaginary part | not executed | DspUtils.PhaseAsWritten | DspUtils.Phase |
| src/main/java/org/sdsai/dsp/Goertzel.java:201 | `Result.phase()` repeats the same test: with real == 0, the second test is again `imaginary > 0`, so a negative imaginary part gives NaN | real 0, imaginary −1 | −π/2 for real 0 and a negative imaginary part | not executed | Goertzels.GoertzelResult.PhaseAsWritten | Goertzels.GoertzelResult.Phase |
| src/main/java/org/sdsai/dsp/FftFilterStream.java:45-50 | `apply` copies all `bufferFill` outputs to samples[start + i ..] even when the buffer held samples from an earlier write, and adds them to the count | block 4, 2 samples waiting, `apply` over 3 samples: 4 outputs are copied into a window of 3 and 4 is returned for length 3 | only the outputs of samples this call took are put back, so the copy stays in samples[start .. start + length) and the count never exceeds length | not executed | FftFilterStreams.PassOverrunExample | FftFilterStreams.PassFromEmpty |
| src/main/java/org/sdsai/dsp/DspUtils.java:75-90 | `bitReversalSort` steps i by 2 from 1 with m starting at length/2, the loop for interleaved complex data, applied to a real-only array: only odd positions move, 2t + 1 with 2·Rev(t) + 1 | 8 samples: only positions 3 and 5 trade places; 4 samples: nothing moves | the bit-reversal permutation, position k holding sample Rev(k) for the reversal of log2 n bits: for 8 samples, 1 with 4 and 3 with 6 | not executed | DspUtils.BitReversedEight | DspUtils.BitReversalInvolution |

Both Varicode tables are valid tables: `Varicode.CharsetValid` proves this for the table as written and `Varicode.CorrectedCharsetValid` for the corrected one. Every stream lemma is stated for any valid table, so the round-trip holds for both. Only the written `]` differs from what other PSK31 software sends. `Goertzels.GoertzelResult.Phase` uses the corrected `DspUtils.Phase`. `DspUtils.PhaseNegativeImaginaryAxis` exhibits the NaN of the code as written; `Goertzels.GoertzelResult.PhaseAsWritten` computes through `DspUtils.PhaseAsWritten`, so the same point shows it there. `FftFilterStreams.FftFilterStream.Apply` is the corrected `apply`: it starts from an empty buffer, where every pass has the shape `FftFilterStreams.PassFromEmpty` proves, and its contract keeps every write inside samples[start .. start + length) and returns a count no larger than length. `FastFourier.Transform` keeps `bitReversalSort` as written, because it models the source's `fft`. The corrected sort `DspUtils.BitReversal` is stated on its own: `DspUtils.BitReversalIsReversal` proves that it puts sample Rev(k) at position k, `DspUtils.BitReversalInvolution` that it is a permutation and its own inverse, and `DspUtils.BitReversalEight` sets it beside the loop as written.
