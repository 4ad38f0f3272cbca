# The two compressors, verified

A Dafny model of bzip2 (`dep/bzip2`) and of the parts of zlib (`dep/zlib`) that carry its hard invariants. Each routine that
works in place is a method over arrays or over the fields of a class, proved against a short mathematical specification; what the
routines are for is then proved about the specifications.

bzip2 is modelled from end to end. A block is put together from runs (`RunCoder`), its rotations are sorted (`MainSort`,
`BlockSort`, `FallbackSort`), the last column becomes move-to-front positions and zero runs (`MtfEncode`), code lengths and codes are made
(`HuffmanLengths`, `HuffmanCodes`), and bits are written (`SendBlock`, `CompressBlock`, `BitWriter`), driven by `Compressor`.
On the other side a specification of the decompressor, a machine that asks for bits (`Machine`), says what a stream means
(`StreamCode`), and the decompressor with its bit buffer, save area, tables and rows (`BitReader`, `DState`, `BlockOutput`,
`Decompressor`) refines it, in its fast and its small form, and for randomised blocks (`Randomise`) as well. The main result joins
the two: decompressing what was compressed gives the input back, however either side slices its input and its output.

Of zlib: `adler32` and `crc32` with their combining functions, `inflate_table` against canonical codes, deflate with all its
levels and strategies (hash chains over a sliding window, greedy and lazy matching, runs only, literals only, stored) as a producer of
tokens, and inflate's window and copies as a consumer of them; here too the two are joined into a round trip.

Rotations of a block may be equal, so "sorted" always means: in non-decreasing cyclic order, equal rotations in any order.

`dafny verify dfyconfig.toml` checks everything.

## Findings

Places where the code, or what is said about it, does not do what one would expect.

- **Room for selectors.** `BZ2_decompress` reads a count of selectors of fifteen bits, refuses only zero (dep/bzip2/decompress.c:289-290),
  and writes that many entries to `selectorMtf` and `selector`, which have 18002 (dep/bzip2/bzlib_private.h:125, 402-403). A header
  that announces 18003 or more makes it write behind both. `SelectorRoom.TooManySelectors` gives such a stream, for which the machine
  gets stuck; `SelectorRoom.InsideExactly` proves that reading the selectors stays inside, whatever bits follow, if and only if the
  count is at most 18002; and `MachineSound.StepSound` and `MachineRun.RunSound` prove that under that condition no step, on any
  bits, ever leaves the tables. `CompressBlock.SelectorsFit` proves that the compressor's own streams meet the condition.
- **The quadrant comment.** The comment at dep/bzip2/blocksort.c:966-985 says that of two rotations with different descriptors the one
  with the smaller descriptor comes first, strictly. Step 3 numbers the rotations of a big bucket in their order, so equal rotations of a
  block that repeats may get different numbers. Exactly when: let m be how often the block repeats its root (`Roots.Repeats`), and
  2^shifts what the numbers of the bucket are divided by. `Descriptors.StrictExactly`: after step 3 the comment holds in the bucket if
  and only if the bucket is empty or m divides 2^shifts; `MainSort.UpdateQuadrant` ensures this of the values it writes. For a whole
  run of mainSort that finishes, `BlockSort.SortMain` ensures that the comment holds if and only if this is so for all big buckets but
  the largest (`BlockSort.AllFine`, a condition on the bytes of the block alone). `RepeatedBlock.CommentFails` runs mainSort on a block for
  which it is not: two copies of 0 followed by 5000 times 251. There the budget of the usual work factor suffices, the rotations
  come out in order, and the comment does not hold. What holds always, and suffices, is that a smaller descriptor is never given to a
  greater rotation (`Descriptors.MeaningKept`); `MainOrder.GtU` accordingly promises that after "greater" the first rotation is not before
  the second, and after "not greater" not after it.
- **fill_window's loop.** The loop `do ... while (lookahead < MIN_LOOKAHEAD && avail_in != 0)` (dep/zlib/deflate.c:1400-1494) never goes
  round twice: one read always has room for enough lookahead. `Deflate.Matcher.FillWindow` asserts it.
- **Distances beyond the window.** inflate checks a distance only against what its call has put out and what the window held when the
  call began (dep/zlib/inflate.c:1125-1133). So where calls end can decide whether a stream is accepted: `InflateCalls.Stream.Inflate` says
  exactly when the mode becomes Bad, in terms of the tokens and of where the calls began, and `InflateSlices.SlicingMatters` proves that,
  for tokens that never go back before the start, all cuttings into calls are treated alike if and only if no distance exceeds the
  window size. `InflateFar.FarInOneCall` and `InflateFar.FarInTwoCalls` give the tokens for which they are not: one literal more than the
  window holds, and a match that goes back to the first; accepted in one call, refused when the first call ends behind the literals.
- **One byte at a time.** For a buffer of a single byte `adler32` reduces its second sum by one subtraction (dep/zlib/adler32.c:77-83).
  That is enough exactly if the high half of the argument and the new first sum together are below 2 * 65521: `Adler.Adler32` ensures that the
  second sum comes out below 65521 if and only if this is so (`Adler.OnceEnough`). It is so whenever the argument was reduced, in
  particular for checksums, and sometimes otherwise (a high half of 65530 with the byte 0 comes out as 9); `Adler.OnceNotEnough` gives an
  argument for which it is not, 0xFFFFFFF0 with the byte 0.

## Model

| member | source | states |
|---|---|---|
| `BlockSort.BlockSort` | dep/bzip2/blocksort.c:1031-1089 | for every block and work factor ptr ends as an order in which all cyclic rotations are non-decreasing, the block is unchanged, and ptr[origPtr] is 0; with the budget exhausted the fallback gives the same |
| `BlockSort.SortMain` | dep/bzip2/blocksort.c:751-1011 | unless the budget runs out, all rotations are in non-decreasing order, and the comment about descriptors holds if and only if `AllFine`; when the budget cannot run out; all reads stay inside nblock + overshoot |
| `MainSort.Step2` | dep/bzip2/blocksort.c:911-946 | every small bucket [t, ss] of a bucket not done yet ends up complete and in order although its rotations were never compared: two scans over big bucket ss, fed by what they write, put each rotation once into its place |
| `InducedSort.ScanComplete` | dep/bzip2/blocksort.c:923-928 | when the queue of a scan has run empty, every run of the byte that leads toward the start of the scan has been read |
| `MainScan.BothComplete` | dep/bzip2/blocksort.c:919-935 | the two scans together put into small bucket [t, ss] exactly as many rotations as it has places |
| `MainScan.DownFits` | dep/bzip2/blocksort.c:929-934 | the scan downward never runs into what the scan upward has written |
| `MainSort.Step2End` | dep/bzip2/blocksort.c:937-944 | assertion 1007 holds, and what the two scans leave |
| `Descriptors.MeaningKept` | dep/bzip2/blocksort.c:948-1004 | descriptors given to a sorted big bucket keep the meaning that comparisons rely on |
| `MainSort.UpdateQuadrant` | dep/bzip2/blocksort.c:989-1004 | step 3 gives the rotation at place j of the big bucket j >> shifts, with the least shifts that bring the bucket below 2^16, leaves all others, and copies into the overshoot; comparisons can rely on the result, and it is as strict as the comment says if and only if the bucket is empty or the number of repeats of the block divides 2^shifts |
| `MainSort.RunningOrder` | dep/bzip2/blocksort.c:837-860 | the shell sort of the big buckets lists each of them once, from the smallest to the largest |
| `MainQSort.QSort3` | dep/bzip2/blocksort.c:621-717 | a range whose rotations agree on their first bytes ends as a rearrangement of itself in non-decreasing order, unless the budget runs out; the explicit stack stays inside its hundred slots |
| `MainQSort.SlotBound` | dep/bzip2/blocksort.c:644-715 | pushing the larger parts first keeps the stack logarithmic, so assertion 1001 cannot fire |
| `MainSimpleSort.SimpleSort` | dep/bzip2/blocksort.c:485-555 | shell sort of a range whose rotations agree on d bytes, with the same outcome |
| `Descriptors.StrictExactly` | dep/bzip2/blocksort.c:966-1003 | after step 3 for a bucket, smaller descriptors mean strictly smaller rotations in it if and only if the bucket is empty or the number of repeats of the block divides 2^shifts |
| `RepeatedBlock.CommentFails` | dep/bzip2/blocksort.c:966-1003 | mainSort on a block of 10002 bytes: it finishes within the usual budget, the rotations are in order, and the comment does not hold |
| `Roots.EqualExactly` | dep/bzip2/blocksort.c:966-985 | two rotations of a block are equal if and only if they start a multiple of the length of its root apart |
| `Roots.RootOver` | dep/bzip2/blocksort.c:966-985 | every block is its root over and over again |
| `Roots.SameGroup` | dep/bzip2/blocksort.c:966-985 | in a stretch that is in order equal rotations stand in groups of exactly as many as the block has repeats, counted from the start of the stretch |
| `MainOrder.GtU` | dep/bzip2/blocksort.c:347-469 | comparing bytes, and quadrants once these agree, never answers against the order of the rotations |
| `FallbackSort.SortBlock` | dep/bzip2/blocksort.c:212-329 | for every block the rotations end in non-decreasing order in fmap, and the block is rebuilt as it was |
| `FallbackSort.Refine` | dep/bzip2/blocksort.c:259-313 | passes that double the bytes compared: each begins with fmap ordered by its first H bytes, and the last leaves the sorted order |
| `FallbackSort.RefineBuckets` | dep/bzip2/blocksort.c:273-306 | one pass over all buckets: order and marks for H bytes become order and marks for 2H bytes; if no bucket was left the marks are on every place |
| `FallbackSort.BucketRefines` | dep/bzip2/blocksort.c:294-305 | one bucket, once it is sorted by class and its new starts are marked, extends the refined part by itself |
| `FallbackSort.Rebuild` | dep/bzip2/blocksort.c:315-328 | the block comes back from the sorted order and the byte counts |
| `FallbackQSort.QSort3` | dep/bzip2/blocksort.c:93-180 | the range ends as a rearrangement of itself sorted by class, for any outcome of the random pivots |
| `FallbackQSort.SlotBound` | dep/bzip2/blocksort.c:106-178 | the stack stays logarithmic, so assertion 1004 cannot fire |
| `FallbackBuckets.AssignClasses` | dep/bzip2/blocksort.c:266-271 | every rotation gets the class of the one that starts H places further on |
| `BitTable.NextClear` | dep/bzip2/blocksort.c:277-284 | the scan that skips whole words finds the first clear bit, as a scan bit by bit would |
| `BitTable.NextSet` | dep/bzip2/blocksort.c:286-291 | likewise for the first set bit |
| `Partition.Partition3` | dep/bzip2/blocksort.c:132-170 | three-way partition around the key of an entry, as a rearrangement |
| `InverseBwt.UnsortSorted` | dep/bzip2/decompress.c:559-573 | for every block and every order that sorts its rotations, ties in any order, walking the inverse of the last column from the block's own place gives the block |
| `InverseBwt.BuildFast` | dep/bzip2/decompress.c:559-566 | packing successors above the symbols, in place, gives a table that holds the symbols and an inverse |
| `InverseBwt.InvertFast` | dep/bzip2/decompress.c:500-573 | the fast form emits the specified bytes, for all symbols and every origin, genuine or not |
| `InverseBwtSmall.InvertSmall` | dep/bzip2/decompress.c:524-555 | the small form emits the same bytes, for all symbols and every origin |
| `InverseBwtSmall.ReverseCycle` | dep/bzip2/decompress.c:536-545 | the pointer reversal stops, having turned round exactly the cycle through the origin |
| `InverseBwtSmall.SetLL` | dep/bzip2/bzlib_private.h:458-473 | any 20-bit value comes back, and the entry that shares its byte is unchanged |
| `InverseBwtSmall.IndexIntoF` | dep/bzip2/bzlib.c:687-698 | binary search finds the byte whose stretch holds the place |
| `Mtf.EntriesOfPositions` | dep/bzip2/compress.c:161-207 | finding by position undoes placing, for every list and every sequence |
| `Mtf.RunOfDigits` | dep/bzip2/decompress.c:379-398 | every run length comes back from its digits |
| `Mtf.PositionsOfSymbols` | dep/bzip2/compress.c:159-230 | reading symbols back into positions undoes telling positions as symbols |
| `MtfEncode.GenerateMtfValues` | dep/bzip2/compress.c:120-231 | the symbols of the block, at most nblock + 1 of them, and their frequencies, written over the very memory that the sorted order is read from |
| `MtfRows.Front` | dep/bzip2/decompress.c:423-474 | for every list and position the sixteen sliding rows do what a plain move-to-front list does |
| `MtfRows.Rebase` | dep/bzip2/decompress.c:463-472 | copying the rows to the end of their array, over themselves, loses nothing |
| `MtfRows.RowBounds` | dep/bzip2/decompress.c:444-471 | row i begins between 16 i and 3840 + 16 i |
| `HuffmanLengths.MakeCodeLengths` | dep/bzip2/huffman.c:63-148 | for 2 to 258 symbols and frequencies below 2^23 it stops with lengths from 1 to maxLen whose Kraft sum is exactly one |
| `HuffmanLengths.TooLongIsHeavy` | dep/bzip2/huffman.c:114-147 | a code that is too long needs more weight than twice the number of symbols, so flattening makes progress |
| `HuffmanLengths.JoinFits` | dep/bzip2/huffman.c:25-31 | trees of weight below 2^23 are never higher than 33, so the eight bits for the height never overflow |
| `HuffmanTree.KraftIsOne` | dep/bzip2/huffman.c:115-121 | the depths of the leaves of a full tree have Kraft sum one |
| `HuffmanHeap.PopLeast` | dep/bzip2/huffman.c:33-59 | takes out a lightest node and leaves a heap of the others |
| `HuffmanCodes.AssignCodes` | dep/bzip2/huffman.c:152-166 | the codes are the canonical ones: consecutive within a length, in the order of the symbols |
| `HuffmanCodes.CodesFit` | dep/bzip2/huffman.c:152-166 | every code fits in its length if and only if the Kraft sum is at most one |
| `HuffmanCodes.PrefixFree` | dep/bzip2/huffman.c:152-166 | no code begins with another |
| `HuffmanCodes.CreateDecodeTables` | dep/bzip2/huffman.c:170-200 | limit is the last code of each length, base what to subtract, perm the symbols ordered by length |
| `HuffmanCodes.CodeStops` | dep/bzip2/decompress.c:87-101 | reading a code bit by bit the test succeeds at its last bit and not before, and the tables then give its symbol |
| `HuffmanCodes.AnyBitsStop` | dep/bzip2/decompress.c:90-101 | on any bits, when the test succeeds the place looked up was filled, so the range checks behind it cannot fail |
| `BitWriter.Writer.W` | dep/bzip2/compress.c:58-78 | n bits follow all bits written before, and the buffer stays a word of 32 bits |
| `BitWriter.Writer.FinishWrite` | dep/bzip2/compress.c:46-54 | the bytes are the bits written and less than a byte of zeros |
| `BitReader.Reader.GetBits` | dep/bzip2/decompress.c:43-65 | the front of the bits that were offered, as a number; or nothing, if there are too few, and then every byte has been taken and every bit is kept |
| `DecompressState.DState.Decompress` | dep/bzip2/decompress.c:107-641 | a call restores its locals, takes exactly the steps of the specified run that the bits offered allow, saves its locals, and keeps the bits left; fields, arrays and saved locals hold the state of the run again, at every label |
| `DecompressState.DState.ReadAndTake` | dep/bzip2/decompress.c:43-65 | one GET_BITS and the code behind it is one step of the run |
| `DecompressState.DState.TakeCoding2` | dep/bzip2/decompress.c:320-373 | code lengths bit by bit, the decoding tables, and the start of the symbols |
| `DecompressState.DState.TakeInRun` | dep/bzip2/decompress.c:383-417 | a digit more, or the run is put down and the symbol looked at afresh |
| `DecompressState.DState.TakeByte` | dep/bzip2/decompress.c:421-483 | a byte through the rows, counted and put down |
| `DecompressState.DState.FinishBlock` | dep/bzip2/decompress.c:488-573 | the checks of the counts cannot fail, and the table of successors, or in the small form the reversed links, is that of the specification |
| `DecompressState.UndoSelectors` | dep/bzip2/decompress.c:303-315 | the selectors come back from their places in a list of at most six |
| `MachineRun.SlicesAgree` | dep/bzip2/decompress.c:613-640 | with Decompress: any way of cutting the bytes into calls gives the state and the bits left of one call with all of them |
| `MachineSound.StepSound` | dep/bzip2/decompress.c:195-487 | on any bits every step stays inside the tables, if no more selectors are announced than there is room for |
| `MachineRun.RunSound` | dep/bzip2/decompress.c:195-487 | the same along a whole run |
| `SelectorRoom.InsideExactly` | dep/bzip2/decompress.c:289-300 | reading the selectors stays inside, whatever bits follow, if and only if the count is at most 18002 |
| `SelectorRoom.TooManySelectors` | dep/bzip2/decompress.c:289-300 | a stream on which the decompressor writes behind its room |
| `CodeReads.ReadsCode` | dep/bzip2/decompress.c:74-102 | the bits of a code, no more and no fewer, take the machine to its symbol |
| `BlockCode.BlockComes` | dep/bzip2/decompress.c:222-487 | every good block, read from its bits, no more and no fewer, comes out as the bytes that its symbols make |
| `SendBlock.MakeCode` | dep/bzip2/compress.c:480-492 | assertions 3004 and 3005 hold, and the codes are those of the lengths |
| `SendBlock.WriteSymbols` | dep/bzip2/compress.c:545-594 | exactly the codes of the symbols, group by group |
| `CompressBlock.SelectorsFit` | dep/bzip2/compress.c:456-458 | assertion 3003 holds and the count fits in fifteen bits |
| `CompressBlock.WriteBlock` | dep/bzip2/compress.c:602-654 | the bits of a block that leads back to these bytes have been written, whatever the bytes, the work factor and the choice of tables |
| `CompressBlock.BlockComesBack` | dep/bzip2/decompress.c:222-573 | the decompressor reads exactly these bits and then holds what inverse block sorting turns into the bytes of the block |
| `Rle.RunsComeBack` | dep/bzip2/bzlib.c:216-247 | every sequence of runs comes back from what is written for it |
| `RunCoder.Coder.AddChar` | dep/bzip2/bzlib.c:260-284 | what the block stands for and the run that is open grow by this byte, and the checksum goes with the former |
| `RunCoder.Coder.FlushRL` | dep/bzip2/bzlib.c:252-256 | the open run moves into the block |
| `Compressor.CopyInput` | dep/bzip2/bzlib.c:289-329 | nothing is lost between input, block and open run; it stops when the block is full, the input ends or what was announced has been taken; at most four bytes over the limit |
| `BlockSize.BlockTakes` | dep/bzip2/compress.c:631-652 | a block takes at most 20 bits for each symbol and a constant for everything else, whatever was compressed |
| `Compressor.CompressStep` | dep/bzip2/compress.c:602-667 | head, block and trailer as they belong to the stream; the bytes made from a block, put behind it in arr2, never run out of its 4 (100000 k + 34) bytes |
| `Compressor.Stream.InputPart` | dep/bzip2/bzlib.c:382-398 | finished blocks, the current block and the open run always make up the input consumed; a block has at most 100000 k - 10 bytes |
| `Compressor.Stream.BzCompress` | dep/bzip2/bzlib.c:407-464 | what each action is allowed to do in each mode, what is returned, and that input and output are conserved; a call that asks for the end with some room never fails and makes a measure smaller |
| `Compressor.FinishAll` | dep/bzip2/bzlib.c:407-464 | asking for the end again and again, with any room but none each time, reaches it with all input consumed |
| `Compressor.CompressAll` | dep/bzip2/bzlib.c:361-464 | for every input, block size, work factor, choice of tables and sequence of rooms a whole compression ends with bytes that the specified decompressor turns into the input |
| `Compressor.Stream.AllComesBack` | dep/bzip2/bzlib.c:361-464 | once the stream has ended, the specified decompressor turns all that was handed over into all the input, however both were sliced |
| `Compressor.Stream.AllFlushed` | dep/bzip2/bzlib.c:369-380 | after a flush all input is in blocks whose bits have been handed over, but for the last bits of the last byte |
| `StreamCode.StreamComesBack` | dep/bzip2/bzlib.c:808-858 | the blocks of a stream, all checksums agreeing, and not a bit too many |
| `BlockCrc.UpdateIsBitwise` | dep/bzip2/bzlib_private.h:167-172 | the table does at once what the bitwise definition does in eight steps |
| `BlockOutput.GetByte` | dep/bzip2/bzlib_private.h:444-479 | the next byte of the block in either form, changed back if the block is randomised, is that of the specified block, without an error |
| `Randomise.ShownTwice` | dep/bzip2/bzlib_private.h:133-148 | changing a block at the places of the table twice gives it back |
| `BlockOutput.Output.constructor` | dep/bzip2/decompress.c:524-573 | from the tables of either form, the output to come is what the block that inverse block sorting gives, changed back if it is randomised, stands for |
| `BlockOutput.Output.UnRlePlain` | dep/bzip2/bzlib.c:706-804 | the loops that fetch one byte after the other (fast and randomised, small, small and randomised): however the output is cut into calls, they put out what the block stands for, with its checksum; corruption is reported if the block is incomplete and there is room, and only if it is incomplete |
| `BlockOutput.Output.UnRleFast` | dep/bzip2/bzlib.c:594-682 | the fast loop over locals promises the same |
| `BlockOutput.Output.PutOut` | dep/bzip2/bzlib.c:819-824 | the same for the choice among the forms |
| `Decompressor.Stream.BzDecompress` | dep/bzip2/bzlib.c:808-858 | goes on until input or room are used up, the stream ends, or it fails; it fails only if no stream begins with the bytes taken |
| `Decompressor.Stream.ComesBack` | dep/bzip2/bzlib.c:808-858 | fed with a stream that decodes to data, calls of any sizes never fail, put out a beginning of data at any time and all of it by the end, and reach the end once all bytes are there and there is room |
| `Decompressor.RoundTrip` | dep/bzip2/bzlib.c:361-858 | decompress(compress(x)) = x for the two drivers, whatever the slicing of input and output on either side |
| `Adler.Adler32` | dep/zlib/adler32.c:65-133 | the two sums brought up to date with the buffer modulo 65521, without overflow of 32 bits; the first comes out reduced, and the second too if and only if the buffer is not a single byte or one subtraction is enough; from a checksum it gives the checksum of the whole |
| `Adler.OnceNotEnough` | dep/zlib/adler32.c:77-83 | an argument and a byte for which the second sum is not below 65521 |
| `Adler.NoOverflow` | dep/zlib/adler32.c:15-16 | the sums of NMAX bytes fit in 32 bits |
| `Adler.Incremental` | dep/zlib/adler32.c:65-133 | a checksum may be computed piece by piece |
| `Adler.Combine` | dep/zlib/adler32.c:136-162 | for all x and y the checksum of x followed by y from theirs and the length of y |
| `Adler.Mod` | dep/zlib/adler32.c:26-44 | MOD without division keeps the remainder |
| `Adler.Mod63` | dep/zlib/adler32.c:45-57 | likewise MOD63, for numbers of 63 bits |
| `Crc32.MakeCrcTable` | dep/zlib/crc32.c:103-131 | entry n of table k is byte n followed by k zero bytes, by the polynomial built from its exponents |
| `Crc32.Crc32Little` | dep/zlib/crc32.c:241-278 | byte by byte, by words of four table look-ups, and byte by byte again, for any alignment: the bitwise checksum |
| `Crc32.FourBytes` | dep/zlib/crc32.c:241-243 | a word taken in at once is its four bytes one after the other |
| `Crc32.MatrixTimes` | dep/zlib/crc32.c:327-341 | applying the operator of k zero bits is k shifts |
| `Crc32.MatrixSquare` | dep/zlib/crc32.c:344-352 | the square is the operator of twice as many |
| `Crc32.Combine` | dep/zlib/crc32.c:355-408 | for all x and y the checksum of x followed by y from theirs and the length of y |
| `Inftrees.InflateTable` | dep/zlib/inftrees.c:32-306 | returns -1 exactly for over-subscribed sets and for incomplete ones other than a single code of one bit in a set of lengths or distances; after 0, for every string of bits the look-ups find the one symbol whose code it begins with, and its length |
| `CanonicalCode.BeginsOnce` | dep/zlib/inftrees.c:130-147 | no string begins with the codes of two symbols |
| `CanonicalCode.Covered` | dep/zlib/inftrees.c:130-138 | with Kraft sum one every string begins with the code of some symbol |
| `CanonicalCode.Consecutive` | dep/zlib/inftrees.c:140-147 | in order of length and symbol every code begins where the one before it ends |
| `Backwards.NextBackwards` | dep/zlib/inftrees.c:241-250 | the backwards increment gives the next code with its bits reversed, or zero after the last |
| `Window.Inflater.UpdateWindow` | dep/zlib/inflate.c:379-427 | the ring holds the last bytes of everything put out so far, wrapped or not |
| `Window.Inflater.GetDictionary` | dep/zlib/inflate.c:1268-1289 | those bytes in order |
| `InflateCopy.MatchStep` | dep/zlib/inflate.c:1123-1167 | one pass copies what byte-by-byte copying from the full history would; a distance is refused exactly if it reaches behind the window |
| `InflateCopy.MatchFast` | dep/zlib/inffast.c:186-281 | the same for a whole match, from the window, around its end, from the output, or from one and then the other |
| `InflateCalls.Stream.Inflate` | dep/zlib/inflate.c:1123-1237 | over any number of calls and any room in each, the window is updated so that matches cut off and resumed, and literals, put out what the tokens stand for; the mode becomes Bad exactly if there is room left and the distance of the last token exceeds what this call has put out and the window held at its beginning, that is, exactly for those tokens and starts of calls for which `InflateSlices.Refused` holds |
| `InflateCalls.InReach` | dep/zlib/inflate.c:1125-1133 | a distance up to the window size is in reach in whatever call its match is resumed |
| `InflateCalls.ReachExactly` | dep/zlib/inflate.c:1125-1133 | the test that inflate makes, at any point of a call: a distance passes if and only if it goes back no further than the start of the call, or than the window size from there, and not before the start of all output |
| `InflateSlices.SlicingMatters` | dep/zlib/inflate.c:1123-1137 | for tokens that do not go back before the start all cuttings into calls are treated alike if and only if no distance exceeds the window size |
| `InflateFar.FarInOneCall` | dep/zlib/inflate.c:1123-1167 | inflate accepts a match that goes back further than the window within one call |
| `InflateFar.FarInTwoCalls` | dep/zlib/inflate.c:1123-1137 | it refuses the same tokens when the first call ends before the match |
| `InflateCalls.RoundTrip` | dep/zlib/deflate.c:665-976 | what deflate's matcher was supplied with comes back when inflate is fed with its tokens, whatever the calls on either side |
| `HashChains.ThirdEqual` | dep/zlib/deflate.c:1242-1254 | equal hashes and two equal bytes make the third byte equal, so longest_match may skip it |
| `HashChains.ChainsInsert` | dep/zlib/deflate.c:186-189 | entering a string keeps every chain position above the limit one with the same hash |
| `HashChains.ChainsSlide` | dep/zlib/deflate.c:1419-1451 | sliding the window keeps it |
| `HashChains.KeysGood` | dep/zlib/deflate.c:288-291 | for every memory level the shift pushes a byte out in three steps and the mask has eight bits at least |
| `LongestMatch.LongestMatch` | dep/zlib/deflate.c:1148-1289 | what it finds is a match of that length within the distance limit, longer than asked for, or it leaves things as they were; unless it is of nice length or takes all the lookahead, no position tried on the chain has a longer one |
| `Deflate.Matcher.constructor` | dep/zlib/deflate.c:213-320 | for every level, strategy, window size and memory level the state after deflateInit satisfies everything that the functions of the levels rely on, whatever the memory held |
| `Deflate.Matcher.FillWindow` | dep/zlib/deflate.c:1390-1532 | no input is lost, window and chains stay sound across the slide, and there is enough lookahead or no more input |
| `Deflate.Matcher.DeflateFast` | dep/zlib/deflate.c:1628-1722 | the tokens stand for exactly the input before strstart, distances from 1 to MAX_DIST and lengths from 3 to 258 |
| `Deflate.Matcher.DeflateSlow` | dep/zlib/deflate.c:1730-1853 | the same, less one byte while a match is held back |
| `Deflate.Matcher.DeflateStored` | dep/zlib/deflate.c:1564-1619 | level 0: blocks of at most the size that pending_buf takes, nothing lost when the window slides, and no match |
| `Deflate.Matcher.DeflateRle` | dep/zlib/deflate.c:1861-1928 | runs only: the tokens stand for the input before strstart, all distances being one |
| `Deflate.Matcher.RunLength` | dep/zlib/deflate.c:1887-1904 | how many bytes repeat the one before: none if they are fewer than three, at most 258, and no fewer than there are |
| `Deflate.Matcher.DeflateHuff` | dep/zlib/deflate.c:1934-1967 | literals only |
| `Deflate.Matcher.Forget` | dep/zlib/deflate.c:931-937 | a full flush forgets all strings and begins the window anew, keeping all that holds between calls |
| `Deflate.Matcher.Deflate` | dep/zlib/deflate.c:665-945 | over any sequence of calls, with any flush, the tokens stand for a beginning of all the input supplied, and for all of it once it has been declared finished; exactly when a stream error or a buffer error is returned; no matches but those that level and strategy allow; after a block flushed to the end nothing is held back, and after a full flush nothing before it is known |

## Left out

- DecompressState.DState.Decompress: after an error the original keeps its label, so that a further call would read on from there; as its callers do, the model makes no further call.
- DecompressState.DState.Decompress: the counters of total input are not modelled; the small variant's ll16 is the array tt.
- MtfRows.Front: the loop unrolled four times is a plain loop, as are the other unrolled loops.
- Compressor.CompressStep: arr2 is not one array for the block and the bytes made from it; zbits is a sequence of its own, started afresh for every block, and what is proved is that the two together have room in arr2.
- CompressBlock.WriteBlock: which table each group of fifty symbols gets is a parameter; the quality of the choice (costs and iterations) is not modelled. Work arrays are allocated per block.
- Inftrees.InflateTable: that ENOUGH_LENS and ENOUGH_DISTS are never exceeded comes from an exhaustive search; the model has the check only.
- Crc32.Crc32Little: the big-endian variant is not modelled.
- InflateCalls.Stream.Inflate: the bits of a block are decoded elsewhere; a call is given the tokens that its input holds, and stored blocks are literals. The check value, INFLATE_STRICT and INFLATE_ALLOW_INVALID_DISTANCE are left out.
- Deflate.Matcher.Deflate: what becomes of the tokens (trees.c is not part of this model), so whether the output has room after a block is a parameter, and so is the room at the start and at the end of a call; preset dictionaries, deflateParams and deflateTune are left out. Lookahead goes down together with strstart.
- Memory allocation and its failure, verbosity, parameter checks, byte counters, gzip headers, stdio wrappers and the generated gsoap code.
