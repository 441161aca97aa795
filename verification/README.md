# Squared engine: a verified model

Squared builds workspaces from `.sq` cartridges. A cartridge is a ZIP archive whose entries are DEFLATE
streams; the engine plans which files its resources contribute, applies the plan in one transaction,
records a hash of every file and can verify the workspace against that record later. This project models
that path in Dafny and proves what each part of it is for.

- **DEFLATE** (`miniz_tdef.c`, `miniz_tinfl.c`; RFC 1951). `InflateSpec` says what inflating means, one
  small step at a time with the whole remaining input in sight. The decompressor is a resumable object
  (`Inflater.Decompressor`) over a bit buffer, two-level decode tables and an output buffer, flat or
  circular; every call takes steps of that specification, so the cutting of input and room into calls does
  not matter (`Chunking`). The compressor is an object (`Compressor.Compressor`) over a circular dictionary, hash
  chains, a flag-packed token buffer (`TokenBuffer.Buffer`) and a bit writer (`BitSink.Sink`); after
  every call and flush the bits sent expand, by the same specification, to the input parsed.
  `RoundTrip` puts both together. Below them stand the Huffman builder (stable radix sort, in-place
  merging proved to be of minimum redundancy, depth bound, length limit, canonical codes), the run-length
  coding of code sizes, and the decode tables. What the specification means is also proved of streams no part
  of this project sends: the static code symbol by symbol (`StaticCode`), stored, static and dynamic streams
  byte by byte (`KnownStreams`, `DynamicStream`), and streams that must be refused (`RefusedStreams`).
- **ZIP central directory** (`miniz_zip.c`; PKWARE APPNOTE sections 4.3.12 and 4.3.16). Writer and reader
  undo each other; heap sort and binary search agree with the linear scan. `ZipArchive` joins them.
- **Plan, transaction, verify** (`project_service.cpp`, `transaction_service.cpp`, `engine.cpp`). The file
  system is a map from paths to nodes, and every call that changes it may fail half way, as an oracle
  decides. `Generation` runs from contributions to a verified workspace.
- **Versions** (`version.cpp`, `error.cpp`), **SHA-256** (`sha256.c`; FIPS 180-4 sections 5.1.1 and 6.2.2)
  and **Adler-32** (`miniz.c`; RFC 1950 section 2.2). The definitions are tied to known digests and checksums, to
  laws for each bit, and to the roots the constants come from.

Bits are sequences of booleans in stream order. Integers are unbounded except where the width matters:
counts and chain links are 16-bit, the token and output buffers have their real sizes, SHA-256 works on
bit-vectors and Adler-32 wraps at 32 bits.

Three results are not what one might expect of the code.

- Every plan returned is well ordered, but not every one can be applied: a file of one resource may lie
  where another needs a directory, and planning does not look for that. `Generation.AcceptedButUnfit` gives
  such a plan, and `Generation.PlanFits` says exactly which plans can be applied.
- The path of the metadata record is not reserved. An entry there is accepted and can be applied; the record
  then takes the place of its file, and verifying reports it as modified or counts it as edited
  (`Generation.RecordEntryAccepted`, `WorkspaceVerify.RecordStepNotClean`).
- When an entry overrides a path, both writes get a row and both rows get the hash of the first, because the
  hash is looked up by the first match (`engine/src/services/transaction_service.cpp:216-219`). If the two
  contents differ in hash, a fresh workspace verifies as changed (`Generation.OverrideAccepted`).
  `Generation.Generate` says exactly which workspaces verify clean.

The assertion after a flush that room is left in the output buffer
(`third-party/miniz-3.1.2/miniz_tdef.c:718`) holds for every block, static, stored or dynamic, with any marker
behind it. For dynamic blocks that takes the cost of the tables chosen: they are compared with one fixed code,
and what the length limiter can lose is bounded.

## Model

| member | source | states |
|---|---|---|
| Canonical.PrefixFree | third-party/miniz-3.1.2/miniz_tinfl.c:339-360 | In any table the decompressor accepts, the bits of one symbol begin those of another only if they are the same symbol. |
| Canonical.Covering | third-party/miniz-3.1.2/miniz_tinfl.c:342-352 | If the running total comes to exactly 65536, any 15 bits start with the code of some symbol. |
| Canonical.DecodeOfSymbolBits | third-party/miniz-3.1.2/miniz_tinfl.c:143-175 | Decoding bits that start with the code of a symbol gives that symbol, whatever follows. |
| Canonical.DecodeTotal | third-party/miniz-3.1.2/miniz_tinfl.c:342-352 | With such a table no 15 bits fail to decode. |
| StaticCode.SameSizeConsecutive | third-party/miniz-3.1.2/miniz_tdef.c:255-257 | Codes of one length, in symbol order, are consecutive numbers. |
| StaticCode.ShorterFirst | third-party/miniz-3.1.2/miniz_tdef.c:255-257 | Every shorter code, filled up with zeros, is below every longer one. |
| StaticCode.ExampleCodes | third-party/miniz-3.1.2/miniz_tdef.c:255-257 | The example of RFC 1951, section 3.2.2: lengths 3, 3, 3, 3, 3, 2, 4, 4 give 010, 011, 100, 101, 110, 00, 1110, 1111. |
| RadixSort.Histogram | third-party/miniz-3.1.2/miniz_tdef.c:104-110 | Both histograms count each digit of the keys exactly. |
| RadixSort.Pass | third-party/miniz-3.1.2/miniz_tdef.c:113-128 | One pass puts the symbols in the order of their buckets for the digit, each bucket keeping the order it came in. |
| RadixSort.RadixSortSyms | third-party/miniz-3.1.2/miniz_tdef.c:100-131 | The array returned is ordered by key, and symbols of equal key keep their order, also when the high-byte pass is skipped. |
| RankedSymbols.SortIsPermutation | third-party/miniz-3.1.2/miniz_tdef.c:100-131 | A stable arrangement by key has exactly the symbols it was given. |
| RankedSymbols.SortedIsRanked | third-party/miniz-3.1.2/miniz_tdef.c:232-241 | Sorting the used symbols lists each symbol with a positive count once, with its count, rarest first. |
| HuffmanBuilder.MergePass | third-party/miniz-3.1.2/miniz_tdef.c:143-164 | The first pass leaves parent numbers of a schedule that merges the two lightest nodes at every step, with no sum leaving 16 bits. |
| HuffmanBuilder.DepthPass | third-party/miniz-3.1.2/miniz_tdef.c:165-167 | The second pass turns parent numbers into the depths of the internal nodes of that schedule. |
| HuffmanBuilder.LeafPass | third-party/miniz-3.1.2/miniz_tdef.c:168-187 | The third pass turns internal depths into the depth of each leaf, in place. |
| HuffmanBuilder.CalculateMinimumRedundancy | third-party/miniz-3.1.2/miniz_tdef.c:134-187 | On sorted weights the lengths left in the array meet the Kraft sum with equality, cost no more than those of any prefix code, do not increase along the array, and are at most 22 for positive 16-bit weights. |
| MinimumRedundancy.ScheduleIsOptimal | third-party/miniz-3.1.2/miniz_tdef.c:134-187 | The leaf depths of any schedule that always merges two lightest nodes beat or equal every choice of code lengths with Kraft sum at most one. |
| HuffmanDepth.DepthTakesWeight | third-party/miniz-3.1.2/miniz_tdef.c:134-187 | A leaf at depth d takes a total weight of at least the Fibonacci number F(d + 2). |
| HuffmanDepth.LeafWeight | third-party/miniz-3.1.2/miniz_tdef.c:134-187 | A leaf of weight w at depth d takes a total of at least w times F(d + 1), so deep leaves are light. |
| HuffmanDepth.DepthIsSmall | third-party/miniz-3.1.2/miniz_tdef.c:220-244 | So with a total below 65536 no length reaches the end of the 33 length counters: none exceeds 22. |
| LengthLimit.Fold | third-party/miniz-3.1.2/miniz_tdef.c:200-201 | Cutting at the limit adds all longer codes to the count of the limit and loses none. |
| LengthLimit.SomethingToSplit | third-party/miniz-3.1.2/miniz_tdef.c:204-213 | While the code is oversubscribed there is a code at the limit to remove and a shorter one to split. |
| LengthLimit.LastUsedBelow | third-party/miniz-3.1.2/miniz_tdef.c:207-208 | The inner search finds the longest length below the limit that is in use. |
| LengthLimit.RepairOne | third-party/miniz-3.1.2/miniz_tdef.c:204-215 | A round splits a code of that length and lowers the excess by exactly one, keeping the number of symbols; which code it splits follows from the counts alone. |
| LengthLimit.EnforceMaxCodeSize | third-party/miniz-3.1.2/miniz_tdef.c:194-216 | From any complete code of at most 2^max symbols the loop ends with a complete code within the limit and as many symbols, reached by splits from the folded counts, and it changes nothing if no code was too long. |
| LimitPenalty.LimitCosts | third-party/miniz-3.1.2/miniz_tdef.c:194-216 | Limiting an optimal code of n symbols to 15 bits costs at most 122 n bits and a last loss that depends on n alone, 60096 bits in all for 288 symbols: only a front part of the ranks is lengthened, and the symbols there are light. |
| HuffmanTable.CollectUsed | third-party/miniz-3.1.2/miniz_tdef.c:232-239 | The symbols with a positive count are collected in symbol order with their counts. |
| HuffmanTable.LimitedCounts | third-party/miniz-3.1.2/miniz_tdef.c:241-246 | Length counts after building and limiting: as many symbols as before, complete if there are two or more, unchanged if nothing was too long. |
| HuffmanTable.GiveSizes | third-party/miniz-3.1.2/miniz_tdef.c:250-252 | Giving out lengths from the most frequent symbol down gives each used symbol one length, shorter to the more frequent, each length as often as counted. |
| HuffmanTable.OptimalIsCheapest | third-party/miniz-3.1.2/miniz_tdef.c:218-253 | Cheapest by rank is cheapest by symbol: no assignment of lengths to symbols costs less. |
| HuffmanTable.NearOptimalIsCheap | third-party/miniz-3.1.2/miniz_tdef.c:218-253 | Within a number of bits of the cheapest by rank is within as many of every assignment by symbol. |
| HuffmanTable.TableIsCheap | third-party/miniz-3.1.2/miniz_tdef.c:218-253 | A table limited to 15 is within the cost of limiting of every prefix code of its symbols. |
| HuffmanTable.OptimizeHuffmanTable | third-party/miniz-3.1.2/miniz_tdef.c:218-269 | For counts that sum below 65536: only used symbols get a size, within the limit, never a longer one to a more frequent symbol; the decompressor accepts the table; with two or more symbols it is complete, it is cheapest of all when the total is too small for the limit to matter, and with the limit of 15 never more than the cost of limiting above the cheapest. Codes are the reversed canonical ones. |
| PrefixCodes.KraftInequality | third-party/miniz-3.1.2/miniz_tdef.c:194-216 | Bit strings none of which begins another meet the inequality the length limiter works by. |
| PrefixCodes.EncodedLength | third-party/miniz-3.1.2/miniz_tdef.c:218-253 | The cost of a table for the counts of a message is the number of bits in which it writes the message. |
| PrefixCodes.NoShorterCode | third-party/miniz-3.1.2/miniz_tdef.c:218-269 | A message of two symbols or more and the table made from its counts: while the message is short enough for the limit not to matter, no bit strings of which none begins another write it in fewer bits; with the limit of 15 and 288 symbols never in more than 60096 bits fewer. |
| PrefixCodes.FewSymbols | third-party/miniz-3.1.2/miniz_tdef.c:218-253 | The limit of 15 does not matter below 2584 symbols, that of 7 not below 55. |
| CodeAssignment.FirstCodes | third-party/miniz-3.1.2/miniz_tdef.c:255-257 | The first code of each length is the canonical one. |
| CodeAssignment.AssignCodes | third-party/miniz-3.1.2/miniz_tdef.c:255-269 | Every symbol gets its canonical code with the bits reversed. |
| SymbolTables.LengthsAgree | third-party/miniz-3.1.2/miniz_tdef.c:39-55 | The symbol and extra bits for a match length are those from which base and extra bits give the length back. |
| SymbolTables.TablesAgree | third-party/miniz-3.1.2/miniz_tdef.c:57-92 | The small and the large distance table are two halves of one mapping, split at 512. |
| SymbolTables.DistancesAgree | third-party/miniz-3.1.2/miniz_tdef.c:57-92 | The symbol and extra bits for a distance are those from which base and extra bits give the distance back. |
| InflateSpec.TableValues | third-party/miniz-3.1.2/miniz_tinfl.c:189-192 | Bases and extra bits for all 31 length codes and all 32 distance codes are those of the listed tables. |
| InflateSpec.DezigzagValues | third-party/miniz-3.1.2/miniz_tinfl.c:193-193 | The formula for the order of code-length sizes has the values of the listed table. |
| TokenBuffer.Buffer.constructor | third-party/miniz-3.1.2/miniz_tdef.c:1340-1375 | A new token buffer is empty, all counts zero. |
| TokenBuffer.Buffer.Record | third-party/miniz-3.1.2/miniz_tdef.c:1059-1098 | Recording appends one token to the flag-packed buffer, counts its symbols, adds its length to the total and takes at most its bytes and one more. |
| TokenBuffer.Buffer.Close | third-party/miniz-3.1.2/miniz_tdef.c:618-619 | Shifting the last flag byte down closes the buffer: its bytes are groups of up to eight tokens behind their flags, and these are the tokens recorded. |
| TokenBuffer.Buffer.Reset | third-party/miniz-3.1.2/miniz_tdef.c:720-728 | After a block the buffer is empty again. |
| TokenBuffer.FewTokens | third-party/miniz-3.1.2/miniz_tdef.c:220-247 | A buffer of 65536 bytes never holds more than 58254 tokens, so no symbol count leaves 16 bits. |
| TokenBytes.PackAt | third-party/miniz-3.1.2/miniz_tdef.c:1059-1098 | The bytes of a list of groups begin with those of the groups before any given one, and that group. |
| TokenBytes.Located | third-party/miniz-3.1.2/miniz_tdef.c:550-560 | Each token lies at its place in the buffer, behind the flag byte of its group. |
| BitSink.Sink.PutBits | third-party/miniz-3.1.2/miniz_tdef.c:271-287 | Putting bits appends them, least significant first, to the bits sent; bytes past the buffer are dropped from what is kept, not from the record. |
| BitSink.Sink.PadToByte | third-party/miniz-3.1.2/miniz_tdef.c:689-692 | Padding appends fewer than eight bits and ends on a byte. |
| BitSink.Sink.Rewind | third-party/miniz-3.1.2/miniz_tdef.c:649-662 | Restoring position, bit buffer and bit count restores exactly the bits sent at that time. |
| BitSink.Sink.Take | third-party/miniz-3.1.2/miniz_tdef.c:730-755 | The bytes handed over are those of the buffer; no bit is lost. |
| TokenWriter.PutMatch | third-party/miniz-3.1.2/miniz_tdef.c:555-577 | A match is sent as length symbol, extra bits, distance symbol, extra bits. |
| TokenWriter.PutTokens | third-party/miniz-3.1.2/miniz_tdef.c:544-584 | Walking the buffer flag by flag sends exactly the recorded tokens, in order. |
| Tokens.MatchRead | third-party/miniz-3.1.2/miniz_tinfl.c:513-597 | The bits of a match make the decompressor append len bytes copied from dist back. |
| Tokens.TokensRead | third-party/miniz-3.1.2/miniz_tinfl.c:422-599 | The bits of a token list make it append what the tokens expand to. |
| Tokens.BlockDataRead | third-party/miniz-3.1.2/miniz_tinfl.c:422-599 | The same with the end-of-block symbol, which ends the block. |
| CodeLengthRle.FlushRepeats | third-party/miniz-3.1.2/miniz_tdef.c:289-307 | Flushing a run of repeats appends operations that decode to it. |
| CodeLengthRle.FlushZeros | third-party/miniz-3.1.2/miniz_tdef.c:309-333 | Flushing a run of zeros appends operations that decode to it. |
| CodeLengthRle.PackSizes | third-party/miniz-3.1.2/miniz_tdef.c:353-397 | Undoing the packed code sizes gives the sizes back, the packed bytes are no longer than the sizes, and the counts are those of the operations. |
| CodeLengthBits.OpsRead | third-party/miniz-3.1.2/miniz_tinfl.c:395-413 | The decompressor reads the operations of a header back as the sizes they stand for. |
| CodeLengthBits.SizesRead | third-party/miniz-3.1.2/miniz_tinfl.c:319-325 | It reads the sizes of the code-length code back from their zigzag order, those not sent being zero. |
| CodeLengthBits.ZigzagInverse | third-party/miniz-3.1.2/miniz_tdef.c:335-335 | The orders used by the two sides undo each other. |
| TableTrim.TokensTrimmed | third-party/miniz-3.1.2/miniz_tdef.c:348-355 | Leaving unused symbols off the end of both tables changes no bit of the tokens. |
| HeaderWriter.BuildTable | third-party/miniz-3.1.2/miniz_tdef.c:337-346 | A table built from counts is good for them and its codes fit their sizes. |
| HeaderWriter.PackLens | third-party/miniz-3.1.2/miniz_tdef.c:357-399 | The packed sizes, the code-length code and its table are such that every operation has a code. |
| HeaderWriter.PutDynamicHead | third-party/miniz-3.1.2/miniz_tdef.c:337-422 | The header sent names counts and sizes from which both tables come back, up to unused symbols at their ends, in at most 4497 bits. |
| Blocks.StaticTables | third-party/miniz-3.1.2/miniz_tinfl.c:295-310 | Both static tables are tables the decompressor accepts; which codes they are say the next two. |
| StaticCode.StaticCodes | third-party/miniz-3.1.2/miniz_tdef.c:424-441 | All 288 codes of RFC 1951, section 3.2.6: 8 bits and 48 + s up to 143, 9 bits and 400 + (s - 144) up to 255, 7 bits and s - 256 up to 279, 8 bits and 192 + (s - 280) up to 287. |
| StaticCode.StaticDistances | third-party/miniz-3.1.2/miniz_tinfl.c:304-308 | The 32 distance codes have 5 bits, the code of s being s. |
| KnownStreams.StoredStreams | third-party/miniz-3.1.2/miniz_tinfl.c:247-288 | A stream that is one stored block inflates just when the second length is the complement of the first and there are as many bytes, and then to these bytes, leaving the rest. |
| KnownStreams.StaticStream | third-party/miniz-3.1.2/miniz_tinfl.c:295-310 | The bytes 4B 04 00 inflate to the letter a. |
| KnownStreams.RepeatStream | third-party/miniz-3.1.2/miniz_tinfl.c:513-597 | The bytes 4B 4C 4A 4E 49 4D 43 26 01, with extra bits in length and distance, inflate to three times abcdef. |
| DynamicStream.Inflated | third-party/miniz-3.1.2/miniz_tinfl.c:311-421 | A dynamic block of 18 bytes, with every kind of run-length code in its header, inflates to abcdabc. |
| RefusedStreams.FourthKind | third-party/miniz-3.1.2/miniz_tinfl.c:289-292 | A stream that begins with a block of the fourth kind never inflates. |
| RefusedStreams.FarMatch | third-party/miniz-3.1.2/miniz_tinfl.c:535-541 | Nor does one whose first block is static and holds a match from in front of the output. |
| RefusedStreams.DeadEnds | third-party/miniz-3.1.2/miniz_tinfl.c:350-418 | Nor does anything with tables that are no codes, with too many code sizes, or with a repeat code before the first size. |
| Blocks.StaticRead | third-party/miniz-3.1.2/miniz_tdef.c:424-444 | A static block makes the decompressor append what its tokens expand to and be ready for the next block, whatever follows. |
| Blocks.DynamicHeadRead | third-party/miniz-3.1.2/miniz_tinfl.c:311-421 | A dynamic header makes it have exactly the tables described. |
| Blocks.DynamicRead | third-party/miniz-3.1.2/miniz_tdef.c:337-422 | The same for a dynamic block, header and data. |
| Blocks.StoredRead | third-party/miniz-3.1.2/miniz_tinfl.c:247-288 | A stored block that ends its header on a byte makes it append the bytes, whatever follows. |
| BlockWriter.DynamicTables | third-party/miniz-3.1.2/miniz_tdef.c:337-346 | Tables built from the counts of a block have a code for each of its tokens and for the end of block. |
| BlockWriter.PutStatic | third-party/miniz-3.1.2/miniz_tdef.c:424-444 | The bits sent are a static block of the tokens, at most ten for each byte of the token buffer and nine. |
| BlockSize.PlainSize | third-party/miniz-3.1.2/miniz_tdef.c:544-584 | With 9-bit literals, 6-bit lengths and 5-bit distances the tokens of a buffer of b bytes take at most 232 b / 25 bits. |
| BlockSize.DynamicDataSize | third-party/miniz-3.1.2/miniz_tdef.c:337-346 | With the tables the compressor builds, limited or not, the data of a block exceeds that by at most 65829 bits. |
| BlockWriter.PutDynamic | third-party/miniz-3.1.2/miniz_tdef.c:337-422 | The bits sent are a dynamic block of the tokens, not longer than that and its header. |
| BlockFlush.PutStored | third-party/miniz-3.1.2/miniz_tdef.c:656-676 | The bits sent are a stored block of the bytes the circular dictionary holds from the start of the block. |
| BlockFlush.PutBody | third-party/miniz-3.1.2/miniz_tdef.c:649-683 | Whichever form is chosen, after whatever was rewound, the bits sent expand to the block; a block still in the dictionary is never larger than its stored form. |
| BlockFlush.FinishRead | third-party/miniz-3.1.2/miniz_tdef.c:687-692 | Padding after the last block takes the decompressor to the end. |
| BlockFlush.MarkerRead | third-party/miniz-3.1.2/miniz_tdef.c:703-715 | The marker of a flush appends nothing and leaves it ready for the next block. |
| BlockFlush.PutMarker | third-party/miniz-3.1.2/miniz_tdef.c:685-716 | The marker sent takes the decompressor there and ends on a byte. |
| BlockFlush.FlushBlock | third-party/miniz-3.1.2/miniz_tdef.c:603-756 | Flushing sends bits that expand to what the tokens do, hands over their bytes and empties the buffer. In every form, with every marker, the output buffer is never filled to its end; a block still in the dictionary grows by no more than the headers of a stored block and a marker. |
| Dictionary.Store | third-party/miniz-3.1.2/miniz_tdef.c:1118-1129 | Storing a byte, mirrored at the head, keeps the dictionary equal to the last 32768 bytes of input. |
| Dictionary.ReadAt | third-party/miniz-3.1.2/miniz_tdef.c:829-871 | Up to 257 bytes on, reading past the end of the circle through the mirror reads the input. |
| Dictionary.EqualBytes | third-party/miniz-3.1.2/miniz_tdef.c:857-861 | Bytes compared in the dictionary are equal just when those of the input are. |
| Dictionary.MatchCopies | third-party/miniz-3.1.2/miniz_tdef.c:829-871 | Copying a true match from its distance back continues the input. |
| MatchFinder.NextCandidate | third-party/miniz-3.1.2/miniz_tdef.c:838-856 | A candidate has a distance within bounds and stands at its place in the circle, whatever the hash chain holds; probes run out. |
| MatchFinder.EqualLength | third-party/miniz-3.1.2/miniz_tdef.c:857-861 | The length counted is that of the longest common start within bounds. |
| MatchFinder.FindMatch | third-party/miniz-3.1.2/miniz_tdef.c:829-871 | The result is the match given or a longer one that is true, at a distance within bounds. |
| Parser.RunLength | third-party/miniz-3.1.2/miniz_tdef.c:1161-1175 | The run found is a true match at distance one. |
| Parser.ChooseMatch | third-party/miniz-3.1.2/miniz_tdef.c:1155-1184 | In every mode the match chosen, if any, is true, of at least three bytes and within the lookahead and the window. |
| Compressor.Compressor.constructor | third-party/miniz-3.1.2/miniz_tdef.c:1340-1375 | A new compressor has read, recorded and sent nothing. |
| Compressor.Compressor.Fill | third-party/miniz-3.1.2/miniz_tdef.c:1110-1150 | Taking in bytes appends them to the input the dictionary stands for; the chains may hold anything. |
| Compressor.Compressor.RecordLiteral | third-party/miniz-3.1.2/miniz_tdef.c:1059-1070 | Recording the byte at a position moves the expansion of the tokens one byte on. |
| Compressor.Compressor.RecordMatch | third-party/miniz-3.1.2/miniz_tdef.c:1072-1098 | Recording a true match moves it by the length of the match. |
| Compressor.Compressor.Decide | third-party/miniz-3.1.2/miniz_tdef.c:1185-1222 | Lazy, greedy or run-length: afterwards the tokens expand to the input up to the new position, less the byte held back while a match is saved. |
| Compressor.Compressor.ParseStep | third-party/miniz-3.1.2/miniz_tdef.c:1154-1227 | A parsing step keeps that, moves on, and takes at most six bytes of the token buffer. |
| Compressor.Compressor.FlushNow | third-party/miniz-3.1.2/miniz_tdef.c:603-756 | A flush in mid-parse keeps dictionary and saved match, and what was sent expands to the input up to there. |
| Compressor.Compressor.CompressNormal | third-party/miniz-3.1.2/miniz_tdef.c:1100-1243 | The loop ends with all input taken in, or with the room of the call full and bytes waiting; the token buffer is never overrun. |
| Compressor.Compressor.TakePending | third-party/miniz-3.1.2/miniz_tdef.c:1245-1264 | Waiting bytes are handed over in order until there are none or no room. |
| Compressor.Compressor.FlushCall | third-party/miniz-3.1.2/miniz_tdef.c:1318-1329 | The flush of a call ends on a byte with all input sent. |
| Compressor.Compressor.Compress | third-party/miniz-3.1.2/miniz_tdef.c:1266-1332 | One call of any sequence: which calls are refused, what is taken in and handed over, that bytes wait only when the room is full, when the end is reached, that after a flush all input is in the bytes, and that a finishing call with room comes nearer to the end. |
| Compressor.Compressor.FlushInflates | third-party/miniz-3.1.2/miniz_tdef.c:1318-1329 | After a flush whose bytes were all handed over, they inflate to the whole input so far and later bytes go on from there. |
| Compressor.Compressor.EndInflates | third-party/miniz-3.1.2/miniz_tdef.c:1318-1331 | After the end, the bytes handed over inflate to the whole input. |
| RoundTrip.DeflateInCalls | third-party/miniz-3.1.2/miniz_tdef.c:1266-1332 | For every input, every sequence of calls with any sizes, rooms and flushes and every setting: if the end is reached, the bytes inflate to exactly the input taken in. |
| RoundTrip.DeflateAll | third-party/miniz-3.1.2/miniz_tdef.c:1266-1332 | Any such calls, then finishing calls with some room each: the end is reached, unless a call that is not a finishing one came after one that is, and the bytes inflate to the input taken in, all of it unless an earlier call asked for the end. |
| RoundTrip.DeflateAtOnce | third-party/miniz-3.1.2/miniz_tdef.c:1266-1332 | One finishing call ends the stream with all input in it, unless its room is filled. |
| RoundTrip.RoundTrip | third-party/miniz-3.1.2/miniz_tinfl.c:187-648 | Compressing by any calls and then finishing ones, and decompressing in any pieces, gives the whole input back. |
| DecodeTable.FillShort | third-party/miniz-3.1.2/miniz_tinfl.c:361-370 | Every entry whose low bits are the code gets the symbol, no other entry changes. |
| DecodeTable.NodesFewComplete | third-party/miniz-3.1.2/miniz_tinfl.c:371-391 | The overflow tree of a complete code has no more nodes than there are symbols. |
| DecodeTable.NodesFit | third-party/miniz-3.1.2/miniz_tinfl.c:371-391 | So two slots a node stay inside the tree array. |
| DecodeTable.BuildTables | third-party/miniz-3.1.2/miniz_tinfl.c:327-392 | The tables are built just when the sizes are complete or have at most one symbol, and then every 10-bit index and every tree slot holds what its bits decode to. |
| TableLookup.Lookup | third-party/miniz-3.1.2/miniz_tinfl.c:161-170 | Following the tables ends at a symbol with the length of its code. |
| TableLookup.FoundIsRight | third-party/miniz-3.1.2/miniz_tinfl.c:161-173 | If the bits held begin with the code of a symbol and the length found is covered by them, it is that symbol and that length. |
| SymbolReader.TryDecode | third-party/miniz-3.1.2/miniz_tinfl.c:112-135 | With few bits held, the check passes only if they hold a whole code, and fails only if they do not. |
| SymbolReader.Fill | third-party/miniz-3.1.2/miniz_tinfl.c:112-135 | Byte by byte, no more is fetched than the next code needs. |
| SymbolReader.HuffDecode | third-party/miniz-3.1.2/miniz_tinfl.c:143-175 | The symbol read is the one the remaining stream starts with, and its bits are gone from it; with no symbol read the stream is unchanged and does not start with one in the bits at hand. |
| BitBuffer.NeedBits | third-party/miniz-3.1.2/miniz_tinfl.c:65-83 | Fetching keeps the stream of held and unread bits. |
| BitBuffer.TakeBits | third-party/miniz-3.1.2/miniz_tinfl.c:95-106 | The value is that of the next bits, least significant first, and the stream loses just those. |
| BitBuffer.UnreadKeeps | third-party/miniz-3.1.2/miniz_tinfl.c:633-640 | Putting a byte back keeps the stream: it is the last byte read. |
| BitBuffer.PutBack | third-party/miniz-3.1.2/miniz_tinfl.c:629-642 | Putting back all whole bytes read in this call keeps the stream. |
| LzCopy.CopyThree | third-party/miniz-3.1.2/miniz_tinfl.c:582-597 | Copying three bytes at a time equals copying forward byte by byte, overlapping or not. |
| LzCopy.CopyWrapped | third-party/miniz-3.1.2/miniz_tinfl.c:543-554 | The masked copy, byte by byte, appends the copy to the output a flat or circular buffer shows, as far as there is room, if the output and the buffer reach back that far. |
| LzCopy.ForwardIsCopyOut | third-party/miniz-3.1.2/miniz_tinfl.c:535-597 | Copying forward in place, also from behind the position in a circular buffer, appends the copy that is defined on the output alone. |
| LzCopy.CopyOutRepeats | third-party/miniz-3.1.2/miniz_tinfl.c:535-597 | Each byte of that copy equals the one dist before it. |
| ReferenceRuns.StoredRun | third-party/miniz-3.1.2/miniz_tinfl.c:261-287 | The steps over stored data append just those bytes. |
| ReferenceRuns.CopyRun | third-party/miniz-3.1.2/miniz_tinfl.c:535-597 | The steps over a match append the copy. |
| InflateSteps.ReadFixed | third-party/miniz-3.1.2/miniz_tinfl.c:76-106 | A fixed-width read does the step of the specification, or stops for want of input with nothing lost. |
| InflateSteps.ReadSym | third-party/miniz-3.1.2/miniz_tinfl.c:143-175 | The same for a symbol. |
| InflateSteps.BuildTab | third-party/miniz-3.1.2/miniz_tinfl.c:327-392 | A table is refused exactly when the specification refuses its sizes. |
| OutputSteps.PutByte | third-party/miniz-3.1.2/miniz_tinfl.c:430-436 | A byte is written, or the call stops with its room full. |
| OutputSteps.SkipToByte | third-party/miniz-3.1.2/miniz_tinfl.c:249-249 | The bits up to the byte boundary of the stream are skipped. |
| OutputSteps.CopyStored | third-party/miniz-3.1.2/miniz_tinfl.c:271-287 | Stored bytes are copied as far as input and room go. |
| OutputSteps.CopyMatch | third-party/miniz-3.1.2/miniz_tinfl.c:535-597 | A match is copied as far as there is room and goes on in a later call; a flat buffer refuses one from before its start, a circular one copies whatever is there. |
| OutputSteps.FastPair | third-party/miniz-3.1.2/miniz_tinfl.c:438-511 | The unchecked fast path over two symbols takes the same steps as the slow one. |
| Inflater.Decompressor.Decompress | third-party/miniz-3.1.2/miniz_tinfl.c:187-648 | One call, with a flat or a circular output buffer, takes steps of the specification over held bits, its input and any later input; its status says why it stopped; the buffer is written only behind the position, and shows the output. |
| Chunking.CallOnValid | third-party/miniz-3.1.2/miniz_tinfl.c:629-648 | On the way through a valid stream a call never fails, says done only at the end, wants room only if more is to come, and without more input ends or wants room. |
| Chunking.OneCall | third-party/miniz-3.1.2/miniz_tinfl.c:187-648 | The same for a call at any place of the data; at the end no bit is left in the bit buffer. |
| Chunking.RunReads | third-party/miniz-3.1.2/miniz_tinfl.c:629-642 | Steps that could not be taken with the bits held read more than those, so bits held over from an earlier call are never bits behind the stream. |
| Chunking.NeverStrays | third-party/miniz-3.1.2/miniz_tinfl.c:535-541 | A valid stream never copies what a circular buffer of 32768 bytes does not have, though nothing checks that there. |
| Chunking.InflateInPieces | third-party/miniz-3.1.2/miniz_tinfl.c:187-648 | Any cutting of a valid stream into calls and any room per call gives the whole output, takes exactly the bytes of the stream and leaves what follows it. |
| Chunking.InflateThroughWindow | third-party/miniz-3.1.2/miniz_tinfl.c:729-757 | The same through a circular buffer of at least 32768 bytes that is emptied after each call and written round and round. |
| Chunking.OneOutput | third-party/miniz-3.1.2/miniz_tinfl.c:187-648 | A stream has at most one output. |
| ZipNames.LeIsTotalOrder | third-party/miniz-3.1.2/miniz_zip.c:523-540 | The order of names is total, and names are equal in it just when they are equal with case folded. |
| ZipNames.LowerIs | third-party/miniz-3.1.2/miniz_zip.c:212-212 | The letters A to Z fold to a to z, and no other byte changes. |
| ZipNames.LessMeans | third-party/miniz-3.1.2/miniz_zip.c:523-540 | A name is less just when, folded, it ends where the other goes on or has the lesser byte where they first differ. |
| ZipNames.FilenameLess | third-party/miniz-3.1.2/miniz_zip.c:523-540 | The comparison of two entries is that order on their names. |
| ZipNames.FilenameCompare | third-party/miniz-3.1.2/miniz_zip.c:1413-1428 | The comparison with a name agrees with it. |
| ZipSort.SiftDown | third-party/miniz-3.1.2/miniz_zip.c:570-579 | Sifting restores the heap, moving only entries of the heap. |
| ZipSort.BuildHeap | third-party/miniz-3.1.2/miniz_zip.c:566-583 | All entries become a heap. |
| ZipSort.SortByFilename | third-party/miniz-3.1.2/miniz_zip.c:552-602 | The indices come out ordered by name, a permutation of those given. |
| ZipSearch.BinarySearch | third-party/miniz-3.1.2/miniz_zip.c:1430-1468 | On indices ordered by name: an entry of that name, or none exists. |
| ZipSearch.StringEqual | third-party/miniz-3.1.2/miniz_zip.c:1402-1411 | Strings are equal with case folded. |
| ZipSearch.LinearSearch | third-party/miniz-3.1.2/miniz_zip.c:1498-1541 | The first entry of that name, or none exists. |
| ZipSearch.LocateBothWays | third-party/miniz-3.1.2/miniz_zip.c:1479-1541 | After sorting, each of the two searches succeeds just when some entry has the name. |
| ZipFormat.CreateHeader | third-party/miniz-3.1.2/miniz_zip.c:3159-3182 | The bytes of the header: the signature PK 1 2, every field lowest byte first at its place, zeros elsewhere; each field reads back as what was put in. |
| ZipDirectory.CreateEnd | third-party/miniz-3.1.2/miniz_zip.c:4472-4480 | The 22 bytes of the end record: the signature PK 5 6, zeros, and the counts, size and offset lowest byte first; each reads back. |
| ZipDirectory.Writer.AddToCentralDir | third-party/miniz-3.1.2/miniz_zip.c:3184-3222 | An entry is added behind the others with its offset, just when the directory stays below 4 GB. |
| ZipDirectory.Writer.Finalize | third-party/miniz-3.1.2/miniz_zip.c:4406-4492 | The archive gets directory and end record behind its data, or is left alone if too large. |
| ZipReader.LocateHeaderSig | third-party/miniz-3.1.2/miniz_zip.c:604-648 | The end record found is the last place with the signature and room for a record; there is none among the last 65557 bytes if none is found. |
| ZipReader.CheckEntry | third-party/miniz-3.1.2/miniz_zip.c:838-949 | An entry as written passes the checks and has its size. An entry passes exactly when it has the signature, sizes that go together, a disk the archive has, data inside the archive and no masked header, and lies in the directory. |
| ZipReader.ReadCentralDir | third-party/miniz-3.1.2/miniz_zip.c:663-957 | From a finalized archive the reader gets the writer's directory bytes and offsets; from any other only entries that pass, back to back from the start of the directory. |
| ZipReader.PassedMeans | third-party/miniz-3.1.2/miniz_zip.c:838-949 | What that means: each entry begins where the one before it ends and ends in the directory, its data end inside the archive, and its header is not masked. |
| ZipReader.NamesReadBack | third-party/miniz-3.1.2/miniz_zip.c:838-949 | The names at those offsets are the names written. |
| ZipArchive.WriteArchive | third-party/miniz-3.1.2/miniz_zip.c:4406-4492 | Adding entries and finalizing works just when they are fewer than 65536 and all of it stays within 32 bits. |
| ZipArchive.WriteAndFind | third-party/miniz-3.1.2/miniz_zip.c:1430-1541 | An archive written, opened again, sorted and searched: a name is found, by both searches, just when an entry of that name was added, letters folded. |
| Paths.NormalizeRelative | engine/src/support/support.cpp:312-339 | A path is refused exactly if empty, absolute, on a drive or going up; otherwise its parts without dots come back, and these stay inside the workspace. |
| Paths.HasParts | engine/src/support/support.cpp:321-326 | Every text is a list of parts without slashes, with a slash of either kind between each two. |
| Paths.PathMeans | engine/src/support/support.cpp:312-339 | Said of these parts: the path is refused when the first is empty, when the second character of the text is a colon, or when a part is two dots; otherwise the parts that come back are all but the empty ones and single dots, in their order. |
| Paths.AncestorDirectories | engine/src/support/support.cpp:341-352 | Every proper prefix, shortest first. |
| Plan.Builder.ClaimDirectories | engine/src/services/project_service.cpp:192-203 | Every directory a path needs is there, each made once, before the write. |
| Plan.Builder.AddEntry | engine/src/services/project_service.cpp:248-342 | An entry is accepted exactly when it has a path, none before it has that path unless its contribution may take it over, it can be read and is not a generated file in the working directory; the first of these problems is the error. Otherwise one write and the missing directories are added. |
| Plan.StableSort | engine/src/services/project_service.cpp:362-371 | The steps come out in a stable order by phase, directories first, then path. |
| Plan.BeforeMeans | engine/src/services/project_service.cpp:362-371 | The order is by phase; in a phase directories come first; then the text of the path decides, by the first place where two differ. |
| Strings.CompareMeans | engine/src/services/project_service.cpp:370-370 | A text is before another just when it ends where the other goes on or has the lesser character where they first differ. |
| Plan.SortedIsSound | engine/src/services/project_service.cpp:362-371 | That order keeps every promise of the plan. |
| Plan.BuildPlan | engine/src/services/project_service.cpp:178-376 | Said of the entries: a plan comes back exactly when each has a path, can be read, is not a generated file in the working directory, and shares its path with an earlier one only if its contribution may take it over. Each error names a fault some entry has. The plan is a stable arrangement of one write for each entry and the directories these need, each made once and before what it holds. |
| Plan.ErrorMeans | engine/src/services/project_service.cpp:248-319 | The error is that of the first entry that is not fit: this entry has the fault it tells of, and those before it are readable, named and not generated in the working directory. |
| Plan.DirBefore | engine/src/services/project_service.cpp:192-203 | Every directory above a file is made by an earlier step. |
| Plan.StepsMean | engine/src/services/project_service.cpp:255-319 | Every directory is made once, a path is written again only by a resource that names it among its overrides, and nothing generated is written in the working directory. |
| Plan.PlanMeans | engine/src/services/project_service.cpp:321-376 | Every entry is written with its path, class, content, phase and resource, nothing else is, and a directory that is made is the working directory or lies above some entry. |
| Plan.PlanWritesDistinct | engine/src/services/project_service.cpp:255-278 | Without overrides no path is written twice. |
| Plan.PlanWritesEntries | engine/src/services/project_service.cpp:178-376 | What the steps of a plan write first and last to each path is what its entries do, in the order they are taken up. |
| Transaction.Stageable | engine/src/services/transaction_service.cpp:182-198 | A step can be staged just when it stands in no other step's way and none in its. |
| Transaction.HashFound | engine/src/services/transaction_service.cpp:216-219 | The hash found for a path is that of what was first written there, whatever was written later. |
| Transaction.BuildRows | engine/src/services/transaction_service.cpp:206-221 | The table has a row for each write, with the hash of what was first written to its path. |
| Transaction.RowsMean | engine/src/services/transaction_service.cpp:206-221 | Row by row: the rows stand for the steps that write, in order, each with the path and ownership of its step and the hash of what the first step to write there wrote. |
| Transaction.InsideWorkspace | engine/src/services/transaction_service.cpp:135-158 | A target is nested just when a directory above it holds .squared/metadata.json. |
| Transaction.StageStep | engine/src/services/transaction_service.cpp:182-204 | A step keeps the target absent, and if it works staging holds what it did and what this step adds; with no failing call it works just when the step fits. |
| Transaction.StageAll | engine/src/services/transaction_service.cpp:182-204 | The same for all steps, with the hashes, the number of steps that make a directory and the number of those that write. |
| Transaction.LandIt | engine/src/services/transaction_service.cpp:223-240 | The record and the rename: the target appears whole in one step, or not at all. |
| Transaction.Apply | engine/src/services/transaction_service.cpp:98-241 | Whatever call fails, the target is absent or holds exactly what the steps wrote last to each path and, in place of anything they wrote at its path, the record; it is absent in every state before the last; nothing else changes. Directories and files are counted, the record as one more file. With no failing call it succeeds just when the target is free, outside any workspace, not below a file, and no step is in another's way. |
| Transaction.LandedMeans | engine/src/services/transaction_service.cpp:182-240 | What has landed: at each path the content of the last step to write there, the record at .squared/metadata.json, and no other file. |
| Transaction.SafeMeans | engine/src/services/transaction_service.cpp:160-240 | What is promised of everything else: outside the target and the staging directory nothing changes but for directories on the way to the target, and until the last state nothing is at the target or below it. |
| WorkspaceVerify.Verify | engine/src/engine.cpp:561-692 | Counters and findings are those of the rows with a path. A path is reported missing exactly when such a row has it and there is no file, and the counter of missing rows is the number of those without a file. |
| WorkspaceVerify.CountersMean | engine/src/engine.cpp:598-667 | Each counter is the number of its rows, said of the tree and the table: missing where there is no file; unhashed where there is one and the row has no hash; modified, or edited if not generated, where there is one and its content has another hash. |
| WorkspaceVerify.FindingsMean | engine/src/engine.cpp:622-660 | A path is reported modified exactly when its file is there, the row is of a generated file with a hash, and the content has another. |
| WorkspaceVerify.FindingsInOrder | engine/src/engine.cpp:598-667 | The findings stand in table order, each for a row of its own, and no row to report is left out. |
| WorkspaceVerify.FileRemoved | engine/src/engine.cpp:622-640 | One file removed from a clean workspace: as many rows are missing as have its path, these are the findings, and nothing else is counted. |
| WorkspaceVerify.FileChanged | engine/src/engine.cpp:642-667 | One file changed: the rows with its path and a hash are modified if generated and edited if not, the former are the findings, and nothing else is counted. |
| RecordedHash.Hex | engine/src/support/support.cpp:37-47 | A digest as text: two digits for each byte, the high half first. |
| RecordedHash.HashTextIsReal | engine/src/support/support.cpp:37-47 | The hash recorded, SHA-256 as text, is what the check afterwards requires of a hash: it is never empty. |
| WorkspaceVerify.FreshIsClean | engine/src/engine.cpp:598-667 | On an untouched workspace nothing is missing, and verifying reports and counts nothing just when no step wrote the record's path and no path was overwritten with something of another hash; with distinct paths, just when no step wrote the record's path. |
| WorkspaceVerify.RecordStepNotClean | engine/src/services/transaction_service.cpp:225-227 | A single write to the record's path can be staged, and the workspace then verifies as changed. |
| WorkspaceVerify.ApplyThenVerify | engine/src/engine.cpp:561-692 | After success nothing is missing or unhashed, and the workspace is clean under just that condition. |
| Generation.PlanFits | engine/src/services/transaction_service.cpp:182-198 | The steps of a plan fit together just when no entry's path lies above another's, the working directory's or the record's. |
| Generation.AcceptedButUnfit | engine/src/services/project_service.cpp:255-278 | A plan may be returned that can never be applied: one entry names a file, another something below it. |
| Generation.RecordEntryAccepted | engine/src/services/project_service.cpp:248-342 | One entry at the record's path is accepted and its plan fits. |
| Generation.OverrideAccepted | engine/src/services/project_service.cpp:255-278 | So is an entry that overrides a path with other content, whose row keeps the hash of what was there before. |
| Generation.Generate | engine/src/services/transaction_service.cpp:98-241 | With no failing call, a workspace is made just when every entry is accepted, they fit and the target is free. Nothing is then missing, and it verifies clean just when no entry is at the record's path and none overrides a path with something of another hash; without overrides, just when no entry is at the record's path. |
| SemVer.PrecedenceIsTotalOrder | engine/src/version.cpp:185-195 | Precedence is a total order, and equal in it is what == says. |
| SemVer.NumbersByValue | engine/src/version.cpp:72-74 | Comparing numeric identifiers by length and text compares their values. |
| SemVer.LtMeans | engine/src/version.cpp:185-190 | Major, minor and patch decide in this order, and a pre-release is before its release. |
| SemVer.FirstDifference | engine/src/version.cpp:62-84 | Lists of identifiers are ordered by the first place where they differ, and a list that only goes on is greater. |
| SemVer.WordsAndNumbers | engine/src/version.cpp:72-80 | Numbers are before words, and words are ordered by characters. |
| SemVer.Clause11 | engine/src/version.cpp:185-190 | The example of clause 11.4: 1.0.0-alpha, alpha.1, alpha.beta, beta, beta.2, beta.11, rc.1 and 1.0.0 stand in this order. |
| SemVer.ComparePrerelease | engine/src/version.cpp:48-86 | The loop over identifiers has the sign of the comparison of the split lists. |
| Strings.SplitOfJoin | engine/src/version.cpp:28-41 | Splitting at a character undoes joining with it. |
| VersionText.ParseNumeric | engine/src/version.cpp:13-22 | Digits without leading zero, at most nine, give their value, everything else nothing. |
| VersionText.ValidDotSeparated | engine/src/version.cpp:28-41 | True just when all parts between dots are identifiers. |
| VersionText.HasNoLeadingZeros | engine/src/version.cpp:147-156 | True just when no numeric part has a leading zero. |
| VersionText.Parse | engine/src/version.cpp:126-176 | The version or refusal that the text as a whole determines. |
| VersionText.ParsedIsWellFormed | engine/src/version.cpp:126-176 | What is parsed is well formed. |
| VersionText.ParseUndoesToString | engine/src/version.cpp:178-183 | Parsing the text of a well-formed version gives it back. |
| VersionText.ParsedFromText | engine/src/version.cpp:126-131 | It is also read with blanks around it and a v in front. |
| VersionText.TextOfParsed | engine/src/version.cpp:126-183 | And nothing else is read: every text that gives a version is blanks, perhaps a v, the text of that version, and blanks. |
| VersionText.WellFormedMeans | engine/src/version.cpp:13-41 | Which versions are well formed: numbers of at most nine digits; identifiers not empty and of letters, digits and hyphens; no number with a leading zero in the pre-release. |
| VersionRange.IntervalOfRelease | engine/src/version.cpp:280-300 | Caret and tilde admit a release exactly on their half-open interval. |
| VersionRange.TwoClauses | engine/src/version.cpp:280-300 | On releases a caret or tilde is the same as two clauses, from its bound on and below the next major, minor or patch number. |
| VersionRange.Trichotomy | engine/src/version.cpp:264-279 | Exactly one of lower, equal and greater admits a version; the other two comparisons are the negations. |
| VersionRange.LowerMeans | engine/src/version.cpp:268-270 | Lower admits the versions of a lesser triple, and of its own triple the lesser pre-releases. |
| VersionRange.PreReleaseRule | engine/src/version.cpp:248-262 | A release satisfies a range when every clause admits it, a pre-release only if in addition a clause names a pre-release of the same triple. |
| VersionRange.ResourceIndex.Insert | engine/src/error.cpp:416-431 | The first record of an id and version stays, a later one is a conflict and changes nothing else. |
| VersionRange.ResourceIndex.VersionsOf | engine/src/error.cpp:439-448 | Exactly the records of the id, each once, greatest version first. |
| VersionRange.ResourceIndex.Select | engine/src/error.cpp:450-457 | The greatest indexed version that satisfies the range, or none exactly when none does; every clause admits it, and if it has a pre-release a clause names a pre-release of its triple. |
| Sha256.MessageSchedule | third-party/crypto-algorithms/sha256.c:49-52 | The 64 schedule words of a block. |
| Sha256.Transform | third-party/crypto-algorithms/sha256.c:44-83 | The in-place rounds are the block function. |
| Sha256.PaddedLength | third-party/crypto-algorithms/sha256.c:114-133 | The padded message is whole blocks. |
| Sha256.Context.Update | third-party/crypto-algorithms/sha256.c:99-112 | Taking bytes in appends them to the message the context stands for. |
| Sha256.Context.Final | third-party/crypto-algorithms/sha256.c:114-158 | The digest is that of the padded message, with one block more or not. |
| Sha256.DigestInPieces | third-party/crypto-algorithms/sha256.c:85-158 | Any splitting into calls gives the digest of the whole message. |
| ShaVectors.AbcDigest | third-party/crypto-algorithms/sha256.c:114-158 | The digest of abc. |
| ShaTwoBlocks.LettersDigest | third-party/crypto-algorithms/sha256.c:85-158 | The digest of the 56 letters abcdbcdecdef up to nopq, of two blocks. |
| ShaConstants.ChBit | third-party/crypto-algorithms/sha256.c:24-24 | Bit by bit, Ch is y where x is set and z elsewhere. |
| ShaConstants.MajBit | third-party/crypto-algorithms/sha256.c:25-25 | Maj is the bit that two of the three have. |
| ShaConstants.Ep0Bit | third-party/crypto-algorithms/sha256.c:26-26 | Each bit is the sum of the bits 2, 13 and 22 places up, going round. |
| ShaConstants.Ep1Bit | third-party/crypto-algorithms/sha256.c:27-27 | The same for 6, 11 and 25. |
| ShaConstants.Sig0Bit | third-party/crypto-algorithms/sha256.c:28-28 | For 7 and 18, and 3 without going round. |
| ShaConstants.Sig1Bit | third-party/crypto-algorithms/sha256.c:29-29 | For 17 and 19, and 10 without going round. |
| ShaConstants.ConstantsAreRoots | third-party/crypto-algorithms/sha256.c:32-41 | Each of the 64 constants is the first 32 bits of the fraction of the cube root of its prime. |
| ShaConstants.InitialIsRoots | third-party/crypto-algorithms/sha256.c:85-97 | The eight initial words are those of the square roots of the first eight primes. |
| Adler32.NoOverflow | third-party/miniz-3.1.2/miniz.c:44-60 | Over a block of 5552 bytes neither sum reaches 2^32. |
| Adler32.DeferredIsSame | third-party/miniz-3.1.2/miniz.c:44-60 | One modulus at the end of a block equals one after every byte. |
| Adler32.Composes | third-party/miniz-3.1.2/miniz.c:40-66 | The checksum of a piece is the start value for the next. |
| Adler32.KnownChecksums | third-party/miniz-3.1.2/miniz.c:40-66 | The checksums of no bytes, of Wikipedia, and of 257 bytes of 255. |
| Adler32.AddBlock | third-party/miniz-3.1.2/miniz.c:46-60 | The unrolled loop and the rest, in 32-bit arithmetic, give the reduced sums of the block. |
| Adler32.Adler32 | third-party/miniz-3.1.2/miniz.c:40-66 | For start halves below 65521 the checksum is the byte-at-a-time one, though the first block may be empty. |

## Left out

- Inflater.Decompressor.Decompress: the zlib header and checksum states of the decompressor. The mask of a circular buffer is a remainder by its size; that a size which is no power of two is refused is left out. For a stream that copies what a circular buffer does not have nothing is said of the output. A match cut off by the room of a call is continued by choosing between the two forms of copying again, where the code stays in the one it chose; both write the same bytes.
- Inflater.Decompressor.Decompress: for a stream with incomplete codes only the steps taken are related to the specification, because the fast path refuses a code of length zero and the slow path does not.
- InflateSteps.BuildTab: the decode tables of the object are kept as sequences between calls; they are filled in place as arrays.
- Compressor.Compressor.Compress: the zlib header and checksum, the callback for output (it is a call with unlimited room), allocation and null arguments. What hash chains hold is not constrained, and no match is promised to be found. Positions are unbounded where the code uses 32 bits; it uses them only masked to 16 bits or in differences below 65536.
- HuffmanTable.OptimizeHuffmanTable: the symbols being sorted carry their keys in an array of pairs, of which the keys are copied to an array of their own for the in-place builder; tables have their own length instead of the largest.
- RadixSort.RadixSortSyms: the histogram is one array of 512 counters, as in the code, but counters are unbounded.
- TokenBuffer.Buffer.Record: the assertions on match length and distance are requirements of the caller.
- Unaligned and fast variants (not compiled by default), PNG writing, the wrappers in the style of zlib, and zip-specific compression flags.
- ZipReader.ReadCentralDir: zip64 records, an archive comment, the adjustment for data in front of an archive file, allocation and read errors. The method is read as four bytes, method and time together, as the code does; the writer's entries are required to pass the check that follows.
- ZipDirectory.Writer.AddToCentralDir: local headers and payload are opaque bytes; allocation does not fail.
- ZipArchive.WriteAndFind: the bytes where a zip64 locator would stand are required not to look like one, and entries are required to pass the reader's check of sizes and flags.
- ZipSearch.LinearSearch: the flags for case and path and the comment are not modelled.
- Transaction.Apply: the record is kept as its rows, not as JSON text; the executable bit, syncing and clocks are left out; paths are lists of names.
- WorkspaceVerify.Verify: a read fails only for want of a file; severity and message texts are left out. The hash is a parameter that never returns an empty text. The text of a record is taken never to have the hash one of its own rows gives.
- Plan.BuildPlan: cartridges, substitution of parameters, ownership globs and executable globs are inputs: an entry comes with its normalized path, class and content, and a failed read is a flag. The stable sort of the standard library is an insertion sort.
- VersionRange.ResourceIndex.VersionsOf: the sort of the standard library is an insertion sort; sources and kinds of records are left out.
- VersionText.Parse: range texts, which pad partial versions, are not parsed; ranges are lists of clauses.
- Sha256.Context.Update: an update of 2^32 bytes or more, where the loop counter would not terminate, is a requirement of the caller.
- Paths.NormalizeRelative: applying it twice is not the same as once (`./C:x` becomes `C:x`, which is then refused), so that is not claimed. Matching of globs is left out.
- The Lua interface, JSON, the command line, error texts and enum names.

Nothing was executed.
