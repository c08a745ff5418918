# LogGrep and its LZMA library: a verified model

LogGrep compresses log files by splitting the variable parts of log lines into runtime patterns and dictionaries,
packs the resulting capsules with a vendored LZMA library, and searches the capsules without unpacking all of them.
This project models the parts of that code where correctness is least obvious and proves what they are for.

The main results, each over every input, every run or every reachable state:

* **Parallel block coder** (`MtCoder*`). For any number of threads and any interleaving, blocks are written one at
  a time, in read order, each at most once; if the call returns `SZ_OK` the output is made of all blocks of the
  input, in order. No array is left and the free list is never popped empty, every buffer has exactly one place,
  some thread can always step, and the finishing event is set once, after all threads have finished.
* **BCJ2** (`Bcj2*`, `RangeCoder`). Decoding the four streams of the encoder gives the source back and ends with
  `code == 0`, for every source and every setting, however input and output are cut into calls. The encoder's carry
  handling is proved against an unbounded range coder.
* **x86 filter** (`Bra86`). Each direction undoes the other, in place, for every buffer, address and starting state;
  a stream may be fed in pieces.
* **Match finder** (`Lz*` except `Lzma*`, `MtSync`, `MtFinder`). The cyclic array of the binary tree mode holds, per
  hash bucket, a tree ordered by suffix and by age, in every reachable state. Every reported pair is a true match inside
  the window, lengths rise, and renumbering changes no distance test. As long as no search is cut off, no position of the
  window has a longer match of at least four bytes than the last one reported. In the multithreaded version main thread,
  tree thread and hash thread run together: none fills a block that another one keeps, data is moved only while neither
  other thread reads it, both rings can be stopped and started any number of times, and some thread can always go on.
* **LZMA** (`LzmaProg`, `LzmaSymbol`, `LzmaSame`, `LzmaShort`, `LzmaDec`, `LzmaReal`). The dry run fails exactly when
  the real decoder would need more input, and otherwise names its symbol's class and reads the same bytes. One symbol
  takes at most 20 bytes.
* **LZMA2** (`Lzma2*`). What the encoder writes for any data, block by block, is read back as it was meant; whatever the
  decoder decodes to the end, the parser follows to the same position, fed in any pieces.
* **7z headers** (`Sz*`). The two parsers of a folder record stay in step, so the checks between them cannot fail.
* **Table-driven code** (`Crc*`, `Aes*`). The CRC loops of one, four and eight bytes in both byte orders compute the
  bit-by-bit CRC of section 8 of RFC 1952. The AES tables compute the cipher of FIPS 197, the S-box table is the one
  that its section 5.1.1 defines, and decryption and the block modes undo encryption.
* **Search** (`Kmp`). The shortened failure table and all kinds of queries, with the exact condition under which two
  of them do not mean what their names say.
* **Runtime patterns** (`Union*`). The worklist ends, union numbers stay a permutation, and every sampled row that is no
  outlier is the concatenation of its collected pieces, exactly unless a union left out as empty has something of it.
* **Dictionary capsules** (`Capsule*`). Every value of a variable with a dictionary comes back as the first value with
  its hash, through entries, padded records and the description text; so a value without spaces comes back exactly if no
  other value had its hash before.

Machine integers of the C code are unbounded integers with the wrap-around written out (`u32`, `% TWO32`), except in
the CRC, which works on 32-bit vectors, and in AES, whose 32-bit words are modelled as their four bytes. Random choices,
thread scheduling and the behaviour of calls that are not modelled are parameters of the theorems.

Most loops and all objects of the source are methods and classes here. Each method is proved against a function,
and the theorems are lemmas about these functions and about the invariants of the classes. The block coder and the
two threads of the match finder are state machines, one step for each access to shared state.

## Model

| member | source | states |
|---|---|---|
| MtCoderMain.WritesInOrder | compression/LZMA/MtCoder.c:113-336 | in every interleaving at most one thread is in Write, written blocks have strictly increasing read numbers, and each is the coding of the block read under that number |
| MtCoderMain.Success | compression/LZMA/MtCoder.c:452-599 | if MtCoder_Code returns SZ_OK, all blocks were written exactly once in order, they concatenate to the whole input, all but the last are full and just the last is marked as the end |
| MtCoderMain.EveryBuffer | compression/LZMA/MtCoder.c:234-239 | each buffer index is on the acyclic list that begins with freeBlockHead, or it is bufIndex of exactly one thread or of exactly one ring slot, where exactly one block that was read and not yet written keeps it |
| MtCoderPlaces.CarriedIsHeld | compression/LZMA/MtCoder.c:258-330 | what a thread or a slot carries is the buffer of an outstanding block that keeps it there |
| MtCoderPlaces.FreeListIs | compression/LZMA/MtCoder.c:504-510 | following freeBlockList from freeBlockHead gives the free buffers and ends |
| MtCoderMain.NoFault | compression/LZMA/MtCoder.c:258-330 | no run leaves an array of the shared structure or pops an empty free list |
| MtCoderMain.SlotsDistinct | compression/LZMA/MtCoder.c:187-200 | outstanding blocks have different ring slots and there are never more of them than slots |
| MtCoderMain.BlockedReader | compression/LZMA/MtCoder.c:183-195 | when a reader waits for a ring slot some other thread can step |
| MtCoderMain.NoDeadlock | compression/LZMA/MtCoder.c:452-599 | until MtCoder_Code has returned, it or some coder thread can step |
| MtCoderMain.FinishedOnce | compression/LZMA/MtCoder.c:339-366 | finishedEvent is set at most once, only when every started thread has finished, and it is set before MtCoder_Code returns and whenever all threads have ended |
| MtCoderMain.StepKeeps | compression/LZMA/MtCoder.c:113-336 | every step of any thread keeps the joint invariant of read turn, ring, free list, buffers, data and counters |
| MtCoderMain.RunKeeps | compression/LZMA/MtCoder.c:113-366 | the joint invariant holds after every finite run |
| Bcj2RoundTrip.RoundTrip | compression/LZMA/Bcj2.c:33-257 | decoding the four streams that the encoder ends with gives the source back, uses all streams up and ends with code 0, for every source and every setting |
| Bcj2RoundTrip.RoundTripAnySchedule | compression/LZMA/Bcj2.c:33-257 | the same for every way of cutting the streams and the output space into calls |
| Bcj2RoundTrip.Simulation | compression/LZMA/Bcj2.c:105-254 | from any common point on, with equal contexts and code inside the interval, the decoder writes exactly the rest of the source |
| Bcj2RoundTrip.Nesting | compression/LZMA/Bcj2Enc.c:80-240 | the final interval lies inside every interval on the way and the streams only grow |
| Bcj2RoundTrip.TargetBack | compression/LZMA/Bcj2.c:212-247 | a stored absolute target, made relative again, is the original operand |
| Bcj2Resume.AnySchedule | compression/LZMA/Bcj2.c:33-257 | any number of calls does what one call with everything does, up to one byte read early |
| Bcj2Resume.TwoCalls | compression/LZMA/Bcj2.c:33-257 | splitting one call in two changes neither the result nor the failures |
| Bcj2Dec.Decoder.Decode | compression/LZMA/Bcj2.c:33-257 | the in-place decoder with its bulk copies does what the byte-by-byte definition does |
| Bcj2Dec.Decoder.Start | compression/LZMA/Bcj2.c:35-56 | the five start bytes, with the two rejected starts |
| Bcj2Dec.Decoder.EmitPending | compression/LZMA/Bcj2.c:57-68 | bytes kept from an operand that did not fit go out first |
| Bcj2Dec.Decoder.CopyRun | compression/LZMA/Bcj2.c:122-185 | the bulk copy up to the next opcode equals that many single steps |
| Bcj2Dec.Decoder.Branch | compression/LZMA/Bcj2.c:187-208 | the decision at an opcode, with the context and the probability update |
| Bcj2Dec.Decoder.Target | compression/LZMA/Bcj2.c:212-247 | the operand comes from its stream, becomes relative, and what does not fit is kept |
| Bcj2Dec.RoundCopy | compression/LZMA/Bcj2.c:145-185 | stepping over bytes that are no opcodes one by one or at once is the same |
| Bcj2Enc.EncodeStream | compression/LZMA/Bcj2Enc.c:243-311 | a complete call with END_STREAM hands over the streams of the definition, and the range coder stream is the number that the unbounded coder ends with |
| Bcj2Enc.Encoder.ShiftLow | compression/LZMA/Bcj2Enc.c:55-78 | the number represented by written digits, held-back digits and low is multiplied by 256, so no carry is lost |
| Bcj2Enc.DigitsCarry | compression/LZMA/Bcj2Enc.c:57-74 | turning held-back FF digits into 00 and raising the digit before them adds exactly one |
| Bcj2Enc.Encoder.EncodeBit | compression/LZMA/Bcj2Enc.c:184-204 | one decision moves the represented coder as the unbounded one and updates one context |
| Bcj2Enc.Encoder.Encode2 | compression/LZMA/Bcj2Enc.c:80-231 | the loop reaches the state that the byte-by-byte definition reaches |
| Bcj2Enc.Encoder.EncodeBranch | compression/LZMA/Bcj2Enc.c:166-226 | an opcode is coded as converted or not, by fileSize and relatLimit |
| Bcj2Enc.Encoder.Flush | compression/LZMA/Bcj2Enc.c:233-239 | after five shifts the stream has five digits more than shifts and denotes low |
| Bcj2.Scan | compression/LZMA/Bcj2.c:145-171 | the number of bytes before the next branch opcode, and that there is none among them |
| RangeCoder.BoundInside | compression/LZMA/Bcj2.c:16-18 | with probabilities in 31 to 2017 both halves of a normalised range can be normalised by one byte |
| Bra86.RoundTrip | compression/LZMA/Bra86.c:10-82 | converting and converting back restores every byte, with equal position and state, for both directions and all eight states |
| Bra86.Pieces | compression/LZMA/Bra86.c:10-82 | converting a prefix and then the rest from the state it leaves is converting everything |
| Bra86.KeepsTests | compression/LZMA/Bra86.c:35-46 | rewriting later bytes keeps the outcome of every test by which an earlier opcode was judged |
| Bra86.RewrittenTwice | compression/LZMA/Bra86.c:49-75 | a rewritten operand meets the same tests in the second pass and is restored, also when low bits were complemented |
| Bra86.RewriteTwice | compression/LZMA/Bra86.c:51-70 | the rewrite with opposite offsets is the identity on the 25 stored bits |
| Bra86.X86Convert | compression/LZMA/Bra86.c:10-82 | the loop over the buffer, with its skipping and shifted mask, does what the byte-by-byte filter does |
| Bra86.Operand | compression/LZMA/Bra86.c:27-80 | what the loop does once it has found an opcode |
| Bra86.Skip | compression/LZMA/Bra86.c:23-39 | passing bytes without an opcode only fades the mask |
| LzFind.MatchFinder.GetMatches | compression/LZMA/LzFind.c:665-720 | every reported pair is a true match inside the window, lengths rise strictly from 2, and the arrays hold the updated trees; if no search was cut off so far, no position of the whole window has a longer match than the last reported, unless it has three bytes or fewer |
| LzFind.MatchFinder.Skip | compression/LZMA/LzFind.c:991-1007 | skipping any number of positions leaves the trees that searching them one after the other leaves, at lengths that only fall, and they still hold the whole window if no insertion was cut off |
| LzFind.MatchFinder.SkipOne | compression/LZMA/LzFind.c:991-1007 | a skipped position changes the trees exactly as a searched one |
| LzFind.MatchFinder.Normalize | compression/LZMA/LzFind.c:364-369 | renumbering keeps trees, heads, window and available bytes |
| LzFind.MatchFinder.CheckLimits | compression/LZMA/LzFind.c:373-382 | renumbering, reading and the wrap of the cyclic position keep the class invariant |
| LzFind.MatchFinder.SetLimits | compression/LZMA/LzFind.c:271-298 | until posLimit neither numbers, cyclic buffer nor look-ahead run out, and lenLimit is capped by what is available |
| LzFind.MatchFinder.MovePos | compression/LZMA/LzFind.c:572-579 | moving on keeps the class invariant |
| LzFind.MatchFinder.HeadMatches | compression/LZMA/LzFind.c:686-708 | the two short hash heads give true matches of length two, or three and more followed to the end |
| LzFind.MatchFinder.SetHashes | compression/LZMA/LzFind.c:672-684 | all three heads become the current position and the old ones are returned |
| LzFind.MatchFinder.constructor | compression/LZMA/LzFind.c:178-342 | the empty finder satisfies the invariant whatever the uninitialised links hold |
| LzFind.ResultTree | compression/LZMA/LzFind.c:686-719 | matches of the heads followed by those of the tree are one rising list of true matches |
| LzLoops.GetMatchesSpec1 | compression/LZMA/LzFind.c:465-520 | the loop reports what the search of the tree finds and leaves the tree with the new root in the array, nothing else touched |
| LzLoops.SkipMatchesSpec | compression/LZMA/LzFind.c:522-570 | the same relinking without reports |
| LzTree.FoundTrue | compression/LZMA/LzFind.c:465-520 | every pair found in an ordered tree is a true match and lengths rise strictly |
| LzTree.FoundLongest | compression/LZMA/LzFind.c:465-520 | with enough comparisons no position of the tree has a longer match than the last reported |
| LzTree.StartIsSound | compression/LZMA/LzFind.c:483-490 | starting the comparison at min(len0, len1) finds the full common length |
| LzTree.InsertKeeps | compression/LZMA/LzFind.c:465-520 | insertion keeps the order by suffix and by age, and adds only the new position |
| LzTree.SplitAll | compression/LZMA/LzFind.c:465-520 | with enough comparisons only a position that agrees in full length is dropped |
| LzSon.RelinkInsert | compression/LZMA/LzFind.c:465-520 | the relinked array represents the tree with the new root, without touching links of other trees |
| LzSon.RelinkRep | compression/LZMA/LzFind.c:496-517 | the two open links end up leading to the smaller and the greater half |
| LzOrder.CommonBetween | compression/LZMA/LzFind.c:483-517 | a position between two others shares with either at least as much as the outer two share |
| LzOrder.ScanSound | compression/LZMA/LzFind.c:483-490 | starting a comparison behind bytes known to agree changes nothing |
| LzBuckets.LowerKeepsTests | compression/LZMA/LzFind.c:350-362 | after renumbering every link is in range exactly if it was, at the same distance |
| LzBuckets.LowerBuckets | compression/LZMA/LzFind.c:350-369 | the renumbered arrays represent the same trees |
| LzBuckets.InsertBuckets | compression/LZMA/LzFind.c:665-720 | inserting in one bucket keeps the trees of all buckets one position later |
| LzBuckets.NextBuckets | compression/LZMA/LzFind.c:572-579 | a position that is not inserted only lets the oldest one fall out of range |
| LzBuckets.PruneKeeps | compression/LZMA/LzFind.c:572-579 | a position of the tree that is still in range stays in it |
| LzBuckets.SetHeadsRecent | compression/LZMA/LzFind.c:672-684 | no position of the window is more recent than the heads of its two short hashes |
| LzWindow.InsertComplete | compression/LZMA/LzFind.c:665-720 | with enough comparisons the trees go on holding every position of the window, or a later one that agrees with it in all bytes |
| LzWindow.TreeIsWindow | compression/LZMA/LzFind.c:665-720 | what no position of the bucket's tree exceeds, no position of the window exceeds |
| LzFind.SkippedMore | compression/LZMA/LzFind.c:991-1007 | the trees after some positions do not depend on how positions are numbered |
| LzHash.Hash2Means | compression/LZMA/LzFind.c:689-695 | equal first bytes and equal two-byte hash mean two equal bytes |
| LzHash.Hash3Means | compression/LZMA/LzFind.c:697-703 | equal first bytes and equal three-byte hash mean three equal bytes |
| MtSync.NeverOverwrites | compression/LZMA/LzFindMt.c:23-49 | while the consumer keeps a block, inside the critical section or outside, the producer fills another one, across the wrap-around of the counters, and nobody else is inside while the consumer is |
| MtSync.StoppedClean | compression/LZMA/LzFindMt.c:53-74 | whenever writing is stopped, with csWasEntered set or not, both semaphores are at their initial counts, the section is left and no event is set |
| MtSync.SemaphoresBounded | compression/LZMA/LzFindMt.c:116-117 | neither semaphore exceeds its maximum |
| MtSync.NoDeadlock | compression/LZMA/LzFindMt.c:23-74 | whatever the consumer goes on with, it or the producer can step, or it waits for the thread that moves the data |
| MtSync.RunKeeps | compression/LZMA/LzFindMt.c:23-74 | the invariant of one ring holds after every run of starts and stops |
| MtFinder.NeverOverwrites | compression/LZMA/LzFindMt.c:152-475 | in every run of the three threads no block of either ring is filled while the other side keeps it |
| MtFinder.MovesAlone | compression/LZMA/LzFindMt.c:174-191 | while the hash thread moves the data neither the main thread nor the tree thread reads it |
| MtFinder.StoppedClean | compression/LZMA/LzFindMt.c:451-475 | after a stop of the tree thread, which stops the hash thread in turn, both rings are as they were created and no move is under way |
| MtFinder.SemaphoresBounded | compression/LZMA/LzFindMt.c:116-117 | in every run of the three threads the semaphores of both rings stay within their maximum |
| MtFinder.NoDeadlock | compression/LZMA/LzFindMt.c:152-475 | whatever the main thread asks for and whether or not the tree thread needs another hash block, one of the three threads can step |
| MtFinder.MainGoesOn | compression/LZMA/LzFindMt.c:490-496 | until both rings are ended there is something the main thread may ask for |
| MtFinder.RingRuns | compression/LZMA/LzFindMt.c:152-475 | what the three threads do is a run of each of the two rings |
| MtFinder.TakeKeeps | compression/LZMA/LzFindMt.c:427-475 | every step of one of the three threads keeps both rings' invariants and where the tree thread and its hash ring may be together |
| LzmaDec.DummyIsExact | compression/LZMA/LzmaDec.c:660-850 | the dry run reports an error exactly when decoding the symbol needs more bytes than there are, and otherwise names the class of the decoded symbol and reads the same bytes |
| LzmaDec.SymbolBytes | compression/LZMA/LzmaDec.h:48-51 | from a normalised range decoder a symbol takes at most 20 bytes with the closing normalisation, and 20 bytes are always enough |
| LzmaDec.TryDummy | compression/LZMA/LzmaDec.c:660-850 | the loops of the dry run answer what its tree of decisions says |
| LzmaReal.DecodeSymbol | compression/LZMA/LzmaDec.c:218-585 | the loops of one round decode the symbol, the probabilities and the range decoder that the tree of decisions gives |
| LzmaReal.GetBit | compression/LZMA/LzmaDec.c:22-24 | one decision and the update of its probability, which stays in 31 to 2017 |
| LzmaReal.GetMatched | compression/LZMA/LzmaDec.c:58-63 | the literal coded against the match byte |
| LzmaReal.GetAlign | compression/LZMA/LzmaDec.c:495-504 | the four alignment bits, lowest first |
| LzmaReal.GetDirects | compression/LZMA/LzmaDec.c:472-494 | the direct bits, by the sign of the reduced code |
| LzmaSame.SameDecisions | compression/LZMA/LzmaDec.c:660-850 | both decoders make the same tree of decisions, up to the class of the result |
| LzmaSymbol.SameLitBase | compression/LZMA/LzmaDec.c:251-253 | the two formulas for the address of the literal coder agree |
| LzmaShort.RealOnce | compression/LZMA/LzmaDec.c:218-585 | no path through a symbol uses a probability twice, and all are inside the table |
| LzmaShort.RealCost | compression/LZMA/LzmaDec.h:48-51 | along every path the range is divided by less than 255 to the 20th |
| LzmaProg.TryIsRun | compression/LZMA/LzmaDec.c:67-82 | without repeated probabilities, not adapting them makes no difference within a symbol |
| LzmaProg.RunBytes | compression/LZMA/LzmaDec.c:20-36 | decisions that divide the range little take few bytes |
| Lzma2Stream.StreamRead | compression/LZMA/Lzma2Enc.c:129-226 | the chunks of any sequence of blocks, whatever LZMA does within its contract, are read back with the same sizes and resets and end at the end mark with the last byte |
| Lzma2Stream.BlockRead | compression/LZMA/Lzma2Enc.c:106-226 | the same for one block, after which the decoder is between chunks with nothing due but a state reset |
| Lzma2Stream.SubblockRead | compression/LZMA/Lzma2Enc.c:129-226 | after each subblock the decoder's needInitLevel still says what the encoder's flags say |
| Lzma2Enc.Encoder.EncodeSubblock | compression/LZMA/Lzma2Enc.c:129-226 | writes exactly the header and data of the definition, chooses copy chunks when packing does not pay, refuses when the header does not fit |
| Lzma2Enc.Encoder.CopyBlock | compression/LZMA/Lzma2Enc.c:163-195 | the loop over copy chunks |
| Lzma2Blocks.Encode | compression/LZMA/Lzma2Enc.c:545-650 | a whole buffer, block by block from the start state: what is written is the stream of the blocks, whose raw bytes together are the data, inside the output limit |
| Lzma2Blocks.EncodeBlock | compression/LZMA/Lzma2Enc.c:587-619 | one block: its subblocks are a prefix of its data, srcPos says how much, and the bytes are those of the subblocks |
| Lzma2Blocks.EncodedIsRead | compression/LZMA/Lzma2Enc.c:545-650 | what was written for some data leads the decoder to the end mark at the length of the data, through exactly the chunks that were meant |
| Lzma2Dec.WalkSized | compression/LZMA/Lzma2Dec.c:96-161 | in every state reached the sizes fit the state; between chunks unpackSize is 0 |
| Lzma2Dec.Decoder.UpdateState | compression/LZMA/Lzma2Dec.c:96-161 | one header byte, with every rejected control and property byte |
| Lzma2Dec.Decoder.ParseStream | compression/LZMA/Lzma2Dec.c:306-422 | the parser's loop, its bulk steps and all its return codes |
| Lzma2Decode.DecodedIsParsed | compression/LZMA/Lzma2Dec.c:175-422 | whenever calls of DecodeToDic decode a stream to its end mark, Parse fed the same stream in any pieces with room enough ends there too, at the same position and with the same number of bytes |
| Lzma2Decode.DecodeFollows | compression/LZMA/Lzma2Dec.c:175-301 | a successful call of DecodeToDic stays beside the byte-wise grammar, whatever LZMA does |
| Lzma2Parse.ParseFollows | compression/LZMA/Lzma2Dec.c:306-422 | with room enough a call of Parse follows the grammar and stops only where it should |
| Lzma2Parse.ParseAnyPieces | compression/LZMA/Lzma2Dec.c:306-422 | however the stream is cut, the calls end at the end mark |
| SzLockstep.Lockstep | compression/LZMA/7zArcIn.c:432-596 | if SzGetNextFolderItem accepts the slice that the scan recorded, it uses all of it and agrees on main coder, coders and pack streams |
| SzLockstep.ItemIsScanned | compression/LZMA/7zArcIn.c:676-795 | every record that SzGetNextFolderItem accepts is accepted by the scan with the same end and the same numbers |
| SzLockstep.ScannedIsItem | compression/LZMA/7zArcIn.c:432-596 | a record that the scan accepts is never malformed for SzGetNextFolderItem, at worst beyond its limits |
| SzLockstep.FreeOnes | compression/LZMA/7zArcIn.c:561-579 | the searches for an unused coder and an unused stream always succeed |
| SzTable.FolderTable.ReadFolders | compression/LZMA/7zArcIn.c:676-800 | offsets, stream indices and main coders are recorded as scanned, folder by folder |
| SzTable.FolderTable.OpenFolder | compression/LZMA/7zDec.c:558-570 | the checks for bytes left over and for the main coder never fail, and the stream counts are those recorded |
| SzRead.GetNextFolderItem | compression/LZMA/7zArcIn.c:432-596 | the parser of one record with all its error codes |
| SzRead.PassFolder | compression/LZMA/7zArcIn.c:676-795 | the scan of one record with all its error codes |
| SzNumber.SzData.SkipNumbers | compression/LZMA/7zArcIn.c:599-627 | accepts and advances exactly as that many calls of ReadNumber, and moves nothing on failure |
| SzNumber.SzData.ReadNumber | compression/LZMA/7zArcIn.c:193-228 | the value is the following bytes, lowest first, with the rest of the first byte above them |
| SzNumber.SzData.ReadNumber32 | compression/LZMA/7zArcIn.c:231-252 | the same below 2^31 - 1, and which error otherwise |
| CrcUpdate.CrcUpdateT1 | compression/LZMA/7zCrc.c:47-54 | a table lookup a byte computes the CRC |
| CrcUpdate.CrcUpdateT4 | compression/LZMA/7zCrcOpt.c:12-29 | four lookups a word compute the CRC, for every start address and initial value |
| CrcUpdate.CrcUpdateT8 | compression/LZMA/7zCrcOpt.c:31-55 | eight lookups for two words compute the CRC |
| CrcSwap.CrcUpdateT1BeT4 | compression/LZMA/7zCrcOpt.c:66-85 | with swapped words and tables the result is the same CRC |
| CrcSwap.CrcUpdateT1BeT8 | compression/LZMA/7zCrcOpt.c:87-113 | with swapped words and tables, two words at a time, the result is the same CRC |
| CrcSwap.SwapTables | compression/LZMA/7zCrc.c:112-121 | each table but the first becomes the byte-swapped one before it |
| CrcTable.GenerateTable | compression/LZMA/7zCrc.c:56-71 | table k holds the effect of a byte followed by k zero bytes |
| Crc.UpdateIsSerial | compression/LZMA/7zCrc.c:58-66 | eight shifts of a whole byte are eight single bits of the definition |
| Crc.EightSplit | compression/LZMA/7zCrc.c:45 | the effect of a byte depends on the low byte by a table and on the rest by a shift |
| Crc.BitsLinear | compression/LZMA/7zCrc.c:58-66 | the tables are linear under exclusive or |
| Crc.SlicesAre | compression/LZMA/7zCrcOpt.c:17-25 | four lookups in consecutive tables are four zero bytes |
| AesSbox.SboxIsFips | compression/LZMA/Aes.c:10-26 | the table is the inverse in the field followed by the affine map, and is a permutation |
| Aes.InvCipherCipher | compression/LZMA/Aes.c:187-229 | the equivalent inverse cipher undoes the cipher for every key schedule |
| Aes.InvMixMix | compression/LZMA/Aes.c:78-90 | the four inverse tables undo the four forward tables on every column |
| Aes.RoundsBack | compression/LZMA/Aes.c:210-229 | decryption passes through the states of encryption backwards |
| AesCode.Tables.constructor | compression/LZMA/Aes.c:60-91 | every entry of T, D and InvS |
| AesBlock.Encode | compression/LZMA/Aes.c:187-208 | table lookups compute the cipher of section 5.1 of FIPS 197 |
| AesBlock.Decode | compression/LZMA/Aes.c:210-229 | table lookups compute the inverse cipher of section 5.3.5 of FIPS 197 |
| AesBlock.SetKeyEnc | compression/LZMA/Aes.c:143-164 | the key schedule of section 5.2 of FIPS 197 for 16, 24 and 32 bytes |
| AesBlock.SetKeyDec | compression/LZMA/Aes.c:166-181 | the decryption keys: inner round keys under InvMixColumns |
| AesBlock.InvMixIs | compression/LZMA/Aes.c:174-179 | lookups through both boxes are InvMixColumns of a key word |
| AesModes.CbcRoundTrip | compression/LZMA/Aes.c:238-278 | decryption in chaining mode undoes encryption for any number of blocks |
| AesModes.CtrTwice | compression/LZMA/Aes.c:280-306 | counter mode twice from the same counter is the identity |
| AesModes.Plus1Adds | compression/LZMA/Aes.c:287-288 | the counter step adds one modulo 2^32 |
| AesModes.Context.CbcEncode | compression/LZMA/Aes.c:238-254 | the data becomes the chained cipher of its blocks, and the rest of the buffer is untouched |
| AesModes.Context.CbcDecode | compression/LZMA/Aes.c:256-278 | the same for decryption |
| AesModes.Context.CtrCode | compression/LZMA/Aes.c:280-306 | the enciphered counters are added to the data |
| AesModes.CbcThereAndBack | compression/LZMA/Aes.c:231-278 | encrypting with FIPS 197 in chaining mode and decrypting with the same key restores every byte |
| Kmp.InitKmpNext | cmdline_loggrep/SearchAlgorithm.cpp:245-275 | next[i] is the largest border of i that is not followed by T[i] again, or -1 |
| Kmp.Search | cmdline_loggrep/SearchAlgorithm.cpp:277-319 | the answer for each kind of query, by the least occurrence |
| Kmp.SearchLines | cmdline_loggrep/SearchAlgorithm.cpp:322-353 | the bitmap gains exactly the numbers of the lines with an answer |
| Kmp.AnyIsLeast | cmdline_loggrep/SearchAlgorithm.cpp:294-297 | QTYPE_ALIGN_ANY gives the least occurrence, and one if there is any |
| Kmp.LeftIsPrefix | cmdline_loggrep/SearchAlgorithm.cpp:302-305 | QTYPE_ALIGN_LEFT gives 0 exactly on prefixes |
| Kmp.DicIsEqual | cmdline_loggrep/SearchAlgorithm.cpp:311-315 | the dictionary query gives 0 exactly on equal values |
| Kmp.RightIsSuffix | cmdline_loggrep/SearchAlgorithm.cpp:298-301 | QTYPE_ALIGN_RIGHT tells whether the value ends with T if and only if no earlier occurrence precedes a T at the end |
| Kmp.RightMisses | cmdline_loggrep/SearchAlgorithm.cpp:298-301 | a value that ends with T and is not found |
| Kmp.FullIsEqual | cmdline_loggrep/SearchAlgorithm.cpp:306-310 | QTYPE_ALIGN_FULL tells whether the value is T if and only if the lengths are equal or T does not occur |
| Kmp.FullOverstates | cmdline_loggrep/SearchAlgorithm.cpp:306-310 | a longer value that is found |
| Kmp.BitMap.Union | cmdline_loggrep/LogStructure.h:487-494 | adds one line number, once, to the set and its list |
| UnionWork.RowsComeBack | compression/main.cpp:408-431 | at the end a row that is an outlier of no union is the concatenation of its parts in the collected unions if and only if unions left out by type >= 0 have nothing of it |
| UnionLost.LastRowIsLost | compression/main.cpp:417-431 | a variable of 100 values, too many of them different for a dictionary, whose last row is an outlier of no union and comes back without its last character |
| UnionLost.NoDictionary | compression/main.cpp:333-366 | that variable has values enough for the worklist and at least fifty different hashes, so no dictionary is built |
| UnionLost.OnlyDots | compression/union.cpp:343-385 | whatever rows are selected at random, its root has no common value and is cut around the dot, and the letters before the dot are not cut again |
| UnionWork.NumbersPermute | compression/union.cpp:525-584 | in every reachable state union numbers are exactly 0 to the number of unions less one, each once |
| UnionWork.Tree.Work | compression/main.cpp:408-415 | for every random choice in every union the worklist ends with the invariant of numbers and rows |
| UnionWork.Tree.Execute | compression/union.cpp:91-195 | one union is classified or split; rows and numbers are kept and the remaining weight shrinks |
| UnionWork.Tree.Equeue | compression/union.cpp:525-584 | three new unions behind all others, numbered behind the one that was split |
| UnionWork.Classify | compression/union.cpp:91-195 | constant, empty, split, of fixed or of any length, by nine tenths of the rows |
| UnionWork.LeafOrder | compression/main.cpp:417-431 | unions with rows to write are collected in the order of their numbers |
| UnionWork.ChildrenLighter | compression/union.cpp:343-453 | a split leaves less to split, which is why the worklist ends |
| UnionTree.SplitKeeps | compression/union.cpp:525-584 | a split keeps the numbering and the text of every row without an outlier |
| UnionTree.GrownRow | compression/union.cpp:544-566 | the three pieces stand in number order where the row was |
| UnionTry.Split | compression/union.cpp:343-453 | every successful split cuts all remaining rows inside their bounds and divides at least one |
| UnionTry.TryLCS | compression/union.cpp:414-448 | the matched text, one shorter than the one found common, is in every row that is kept |
| UnionSplit.GetLCS | compression/union.cpp:454-489 | a longest common part of two rows |
| UnionSplit.TestSpliter | compression/union.cpp:585-608 | whether more than nine tenths of the rows have the delimiter and something else |
| UnionSplit.MatchSpliter | compression/union.cpp:641-663 | each row is cut around its first delimiter; rows without it become outliers |
| UnionSplit.TestLCS | compression/union.cpp:609-640 | exactly the rows without a common text become outliers |
| UnionSplit.MatchLCS | compression/union.cpp:706-720 | each row is cut around its first occurrence of the text |
| CapsuleMain.StoreAndLoad | compression/main.cpp:333-396 | fewer than 100 values are stored as they are, a dictionary is built exactly if of the others fewer than half have different hashes, the rest goes to the worklist; with a dictionary every requested value comes back, through the description text, as the first value with its hash without leading spaces |
| CapsuleMain.ComesBack | compression/union.cpp:25-35 | among values without spaces a value comes back if and only if no different value had its hash before |
| CapsuleMain.CollisionLoses | compression/union.cpp:25-35 | a variable of 100 values with a dictionary in which a value comes back as another one |
| CapsuleMain.LeadingSpaceLost | cmdline_loggrep/SearchAlgorithm.cpp:127-137 | a text given to padding and RemovePadding that loses its leading space |
| CapsuleMain.Describe | compression/main.cpp:388-396 | the description of the groups: formats, widths and counts |
| CapsuleLine.ParseDic | cmdline_loggrep/LogStore_API.cpp:388-440 | the number of groups and the groups that the loop over the text finds, whatever lies behind the text in the buffer |
| CapsuleLine.LineRead | cmdline_loggrep/LogStore_API.cpp:388-440 | a description whose formats hold no separator is read back: formats, widths, counts, first and last entry numbers |
| CapsuleLine.FormatsComeBack | cmdline_loggrep/LogStore_API.cpp:411-440 | the formats come back if and only if none of them holds a space or a line end |
| CapsuleLine.FormatPlain | compression/union.cpp:197-212 | a format holds a space or a line end if and only if its value does |
| CapsuleMain.Materialize | cmdline_loggrep/LogStore_API.cpp:1494-1550 | each line's entry leads to its record, which is returned without padding; a line that does not exist gives nothing |
| CapsuleMain.SerializeDic | compression/Encoder.cpp:157-181 | all values in the order of their entry numbers, each group with its own width |
| CapsuleMain.SerializeEntry | compression/Encoder.cpp:141-151 | entry numbers padded to the width of the number of entries |
| CapsuleMain.HashOfNumber | compression/Encoder.cpp:165-175 | sorted by number, the hashes lead to the values in the order of the groups |
| CapsuleMain.ListingSize | compression/union.cpp:214-288 | every hash gets exactly one number |
| CapsuleRoot.RootUnion.BuildMapping | compression/union.cpp:214-288 | values are numbered format by format, the three most frequent formats first, with the size and width of each group |
| CapsuleRoot.RootUnion.constructor | compression/union.cpp:13-59 | the first position of every hash in order of appearance, as long as fewer than half of the values have different hashes |
| CapsuleRoot.RootUnion.CountFormats | compression/union.cpp:225-236 | how often each format occurs |
| CapsuleRoot.RootUnion.NumberFormat | compression/union.cpp:252-264 | the values of one format get the next numbers |
| CapsuleRoot.RootUnion.NumberRest | compression/union.cpp:268-286 | the values without a number get the remaining ones |
| CapsuleNumber.AllListed | compression/union.cpp:214-288 | every value is in some group |
| CapsuleStore.SortFormats | compression/union.cpp:239-241 | all formats, the most frequent first |
| CapsuleStore.SeenBefore | compression/union.cpp:25-35 | the dictionary tells whether a value with this hash occurred before |
| CapsuleText.GetDicOffsetByEntry | cmdline_loggrep/LogStore_API.cpp:1338-1356 | the offset and length of the record with the given number |
| CapsuleText.TextAt | compression/Encoder.cpp:157-181 | where record k of block g stands |
| Capsule.PadRoundTrip | cmdline_loggrep/SearchAlgorithm.cpp:127-137 | padding and removing it gives a text back if and only if it does not begin with a space |
| Capsule.NumberRoundTrip | cmdline_loggrep/SearchAlgorithm.cpp:139-152 | atoi of a padded decimal is the number |
| Capsule.IntPadding | cmdline_loggrep/SearchAlgorithm.cpp:110-125 | the padded number, or its last digits if it is too long, and nothing for more than ten places |
| Capsule.FittedIsPadded | cmdline_loggrep/SearchAlgorithm.cpp:110-125 | for a number that fits this is the stored entry |
| Capsule.RemovePadding | cmdline_loggrep/SearchAlgorithm.cpp:127-137 | the text behind the leading spaces |
| Capsule.Atoi | cmdline_loggrep/SearchAlgorithm.cpp:139-152 | the number that the digits of a buffer denote, whatever stands between them |

## Left out

- Thread-primitive failures and the write-thread build of MtCoder.c: the synchronisation calls succeed. Allocation failure, progress callbacks and the coder itself are choices of a run.
- Bcj2Enc.EncodeStream: one complete call with END_STREAM and room in all streams; output buffers that fill up, the temp carry-over between calls and the relative limits of files over 4 GB are not modelled.
- LzFind.MatchFinder.GetMatches: the four-byte binary tree mode; the two-, three- and five-byte trees and the hash chains are not modelled. The window is the whole input so far, so moving the buffer in memory and direct input have no counterpart.
- LzFind.MatchFinder.Skip: the lengths available at the skipped positions depend on when data arrives; the contract says that they only fall.
- MtFinder.NoDeadlock: ending the rings is modelled after MatchFinderMt_ReleaseStream only, as its caller does; a thread that ends the hash ring while the tree thread is at work has no counterpart. What the threads put into their blocks is that of the single-threaded match finder and is not modelled again.
- LzmaReal.DecodeSymbol: one symbol with enough input; copying matches, the update of state and repeated distances, and the loop over symbols are not modelled. The assembler build is not either.
- LzmaEnc: its encoder is a parameter with the size contract of its header; PPMd, XZ, the RISC filters, Delta and the multithreaded LZMA2 decoder would add the same kind of claim again.
- Lzma2Decode.DecodedIsParsed: the LZMA decoder inside a chunk is a parameter that keeps to its buffers; the dictionary contents and Lzma2Dec_DecodeToBuf are not modelled.
- Lzma2Blocks.Encode: the version with an input buffer; LzmaEnc is a parameter that takes a prefix of what is left of its block. The source position does not wrap at 2^64, and blocks are not split over threads.
- SzRead.GetNextFolderItem: size_t has 64 bits. Of SzAr_DecodeFolder only the start is modelled; the rest of ReadUnpackInfo, files, names, times and archive signatures are left out. The loops over bonds and over pack streams, which the two parsers share word for word, are one method each.
- CrcUpdate.CrcUpdateT4: the choice of the function by processor is not modelled. The byte loops before and after the words are one method.
- AesBlock.Encode: the header word of the key buffer is a separate number, and the processor's own AES instructions are not modelled.
- Kmp.Search: Boyer-Moore is left out; its good-suffix table keeps only the longest border, so it does not find every occurrence. The cache of failure tables in InitKmpNext is never filled and has no counterpart. The value that stands for a full bitmap is not modelled.
- UnionTry.Split: the threshold is exactly nine tenths, where the code multiplies floating-point numbers. rand() is a parameter; an attempt whose second row is an outlier is given up, where the code draws again. The array of 1024 unions has no bound here, as the code does not check it either.
- UnionWork.Tree.Work: a union is a value in a sequence, not an object behind a pointer; its rows are not freed.
- CapsuleMain.StoreAndLoad: variables of fewer than 100 values, which are stored in one padded file, are chosen but not read back. Padding is switched on, buffers are large enough, no two formats have the same hash, and of the description's line the first two fields are left out. With pruning the values hold no spaces or line ends, which is what the code is written for: CapsuleLine.FormatsComeBack says what happens otherwise. The width of the entries, computed with log10 in the code, is the number of decimal digits. LZMA compression of capsules, the sub-pattern capsules with their outliers, and the query planner on top are left out: a row can match a sub-pattern without being used up, and the planner's pruning has no specification that the code meets.
- CapsuleRoot.RootUnion.constructor: the random sample that the same loop takes is a parameter of the worklist.
- Files, memory mapping, the command line, templates of log lines and the comparison scripts are left out.
