# Verified core of the application-layer engine

A Dafny model of six stateful parts of Suricata's application layer, and proofs of what they
promise over every input and every run.

- **HTTP byte ranges.** Several flows fetch slices of one resource. A shared container lends
  its file to one block at a time, parks out-of-order slices in an ordered tree and merges
  them when a block closes. `RangeModel` defines the operations and a system whose events
  are the operations that run under the entry lock; `RangeOwnership`, `RangeContent`,
  `RangeOrder` and `RangeDelivery` prove safety, prefix, order independence and what blocks
  cut short leave; `RangeLeftovers` has the runs in which the file comes out short;
  `HttpRange` has the operations as classes updated in place.
- **DNP3.** CRC (`Dnp3Crc`), block framing (`Dnp3Framing`), link layer (`Dnp3Link`), stream
  buffering (`Dnp3Stream`), transport segments and transactions (`Dnp3Transport`,
  `Dnp3Trace`, `Dnp3Transactions`), all of these together for a flow (`Dnp3Session`), and the
  object decoders as one interpreter over a schema per object (`Dnp3Objects`,
  `Dnp3Application`), with their loops on a cursor (`Dnp3Decoder`).
- **Frames.** The frame store of a stream and its left edge (`FrameModel`, `FrameStore`).
- **Protocol detection.** The registry of probing parsers (`ProbeRegistry`, `ProbeTable`) and
  the probing of a flow (`ProbeMask`, `Probing`).
- **Expectations.** Queues of expected flows per host pair (`ExpectationModel`,
  `ExpectationQueue`).

Each operation that the source performs in place is a method, proved to compute a function;
the theorems are about runs of those functions. Allocation, memory caps, file storage, parser
verdicts and clocks are parameters of the events, so every theorem covers every outcome. What
is assumed of a file is the contract of `src/util-file.c` lines 693-775: an empty append
fails, a failed append still counts its bytes and ends storing, a gap only raises the size.
A Content-Range is required to have first <= last < total, which lines 130-135 of
`src/app-layer-htp-file.c` check before the range code is called.

Six places where the code does something other than what one would expect are stated as
theorems and not repaired. A byte-range block closed before it got anything parks an empty
buffer that can cut the file short, and one closed within its overlap gives the file back
unmerged (`CloseComplete`, `EmptyBufferTruncates`, `OverlapStaysUnmerged`). A DNP3 response
goes on after a segment it had no memory for, so its buffer need not be the message
(`WholeMessage`, `ResponseLosesSegment`). A response with a banner is handled or not depending
on how TCP cuts it (`ResponseSegmentation`, `CutMatters`). The early rejection of short inputs
decides the verdict of object 120:9 when it has no prefix (`EarlyRejectionExactly`). Reopening
a complete frame moves the left edge back (`EdgeAfterLength`, `ReopenedRun`).

Run `dafny verify dfyconfig.toml` to check the project.

## Model

| member | source | states |
|---|---|---|
| `RangeOrder.OrderIndependence` | src/app-layer-htp-range.c:235-594 | For every interleaving of opens, deliveries and closes on one entry: when nothing is refused, each block was fed its whole range of the resource before it closed, every block is closed and together they asked for every byte, exactly one file has been handed out, it is not truncated, and it equals the resource byte for byte. |
| `RangeContent.PrefixTheorem` | src/app-layer-htp-range.c:235-594 | Over every run that delivers bytes of one resource in order per block, whatever is cut short, skipped for the memory cap, refused or out of memory: the file is a prefix of the resource wherever it is held, its size is `lastsize` while an entry that has handed out nothing holds it, and at most one file, again a prefix, is handed out, of full size unless truncated. |
| `RangeContent.MergeGood` | src/app-layer-htp-range.c:512-584 | The merge loop keeps the file a prefix, never shrinks it, drops only fragments the file now contains, and when it meets no error leaves only fragments that start strictly beyond the file. |
| `RangeContent.AppendGood` | src/app-layer-htp-range.c:375-432 | An append of the next bytes of a request keeps the block at the position that skipping and delivery have brought it to, in each of the skipping, in-order and out-of-order cases. |
| `RangeContent.OpenFileGood` | src/app-layer-htp-range.c:235-337 | An open lends the file only at the position it has reached (after skipping the overlap) and leaves tree and `lastsize` alone. |
| `RangeContent.CloseGood` | src/app-layer-htp-range.c:448-594 | A close keeps the entry in order: file a prefix, size equal to `lastsize`, parked fragments slices of the resource. |
| `RangeContent.RunContent` | src/app-layer-htp-range.c:235-626 | The content invariant holds after every run that fetches the resource. |
| `RangeOrder.CloseComplete` | src/app-layer-htp-range.c:448-594 | A close keeps every parked fragment non-empty and, while the entry holds the file, ahead of it, if and only if it neither parks an empty buffer ahead of the file nor gives the file back within the overlap when the file has reached a parked fragment; then what the block was given, in full or not, and everything kept before is in the file or waits in the tree. |
| `RangeOrder.AllDelivered` | src/app-layer-htp-range.c:235-594 | The same outcome when blocks may be cut short: whatever each block asked for, if every byte of the resource was delivered by some block and no close leaves anything behind, the one file handed out is the resource. |
| `RangeDelivery.LongestPrefix` | src/app-layer-htp-range.c:235-594 | For every interleaving without refusals and without such closes, with blocks cut short anywhere: once all are closed the size of the file is the longest prefix of the resource of which every byte was delivered; it is handed out, whole and once, exactly if that is the whole resource, and otherwise the entry keeps that prefix. |
| `RangeDelivery.OnlyDeliveryMatters` | src/app-layer-htp-range.c:235-594 | Two such runs in which the same bytes were delivered, in whatever ranges, pieces and order, end with the same file size and the same file handed out. |
| `RangeDelivery.NothingElse` | src/app-layer-htp-range.c:235-656 | Over every run that fetches the resource, refusals, memory cap and evictions included, each byte counted in the file or parked was delivered by some block. |
| `RangeLeftovers.EmptyBufferTruncates` | src/app-layer-htp-range.c:455-544 | A run without refusals in which every byte of a two-byte resource is delivered and every block closed, and one byte is handed out, truncated: a block closed before it got anything left an empty buffer, whose append fails. |
| `RangeLeftovers.OverlapStaysUnmerged` | src/app-layer-htp-range.c:494-502 | A run without refusals in which every byte is delivered and every block closed, and the second byte stays in the tree: the block that held the file was closed within the overlap, and its file given back unmerged. |
| `RangeOrder.MergeIntoComplete` | src/app-layer-htp-range.c:511-593 | Without refused appends a merge never fails, and either hands the file out complete or holds it still growing with every parked fragment beyond it. |
| `RangeOwnership.OwnershipTheorem` | src/app-layer-htp-range.c:235-656 | Over every run: the use count of an entry is the number of blocks that point at it, a live entry and its blocks hold the file container exactly once between them, an entry nobody uses has its file container, and an evicted one has none. |
| `RangeOwnership.NeverCrashes` | src/app-layer-htp-range.c:150-656 | Over every run in which each block is closed before it is freed, none of the validations at lines 155, 438, 505, 509, 599, 608 and 619 fails. |
| `RangeOwnership.MemoryTheorem` | src/app-layer-htp-range.c:133-626 | Over every run the out-of-order share of `memuse` equals the buffer lengths still held by blocks and trees, never goes negative, and is zero once every block is freed and every entry evicted. |
| `RangeOwnership.CloseKeeps` | src/app-layer-htp-range.c:448-594 | A close gives back the file and the buffer of the block, keeps the tree sorted, and moves the memory counter by exactly what tree and block no longer hold. |
| `RangeOwnership.InsertSorted` | src/app-layer-htp-range.c:68-86 | Insertion by the comparator (start, length, offset) keeps the fragment tree strictly ordered. |
| `RangeOwnership.StepKeeps` | src/app-layer-htp-range.c:133-656 | Ownership, use counts, memory and validations survive every single event, failures of allocation, memory cap and storage included. |
| `HttpRange.OpenFileAux` | src/app-layer-htp-range.c:235-323 | Updates container, counter and new block in place exactly as the open function that the theorems above are about. |
| `HttpRange.OpenRange` | src/app-layer-htp-range.c:325-337 | Open, then append the first data, ignoring a failed append. |
| `HttpRange.RangeBlock.AppendData` | src/app-layer-htp-range.c:375-432 | Updates the block in place exactly as the append function of the theorems; the result is that of the file when data reaches it, also behind a partial skip, and success otherwise. |
| `HttpRange.RangeBlock.Close` | src/app-layer-htp-range.c:448-594 | Updates block, container and counter in place exactly as the close function of the theorems and returns the same file. |
| `HttpRange.MergeFragments` | src/app-layer-htp-range.c:511-593 | The merge loop, with its early exits, computes the merge the theorems are about. |
| `HttpRange.RangeBlock.Free` | src/app-layer-htp-range.c:596-626 | Drops the block, its buffer and its reference; the counter falls by the buffer length. |
| `HttpRange.RangeContainer.Free` | src/app-layer-htp-range.c:133-148 | Drops the file and every fragment; the counter falls by the sum of their buffer lengths. |
| `Dnp3Crc.ComputeCRC` | src/app-layer-dnp3.c:117-174 | The table-driven loop computes the complement of the bit-by-bit CRC, for buffers of every length. |
| `Dnp3Crc.TableCorrect` | src/app-layer-dnp3.c:117-152 | Each of the 256 table entries is its index shifted through the feedback register eight times. |
| `Dnp3Crc.TableStepIsFeed` | src/app-layer-dnp3.c:163-171 | One table step equals feeding the eight bits of the octet, for every register and octet. |
| `Dnp3Crc.ReflectedPolynomial` | src/app-layer-dnp3.c:117-160 | The feedback constant is polynomial 0x3d65 with its bits reversed. |
| `Dnp3Crc.CheckBlock` | src/app-layer-dnp3.c:184-205 | Computing the CRC of the data by table and comparing its low and high octet accepts exactly the blocks of at least three octets that end in the bit-by-bit CRC of their data. |
| `Dnp3Crc.DetectsAdjacent` | src/app-layer-dnp3.c:184-205 | A block that passes fails after any change confined to two adjacent octets, in data, in the CRC or across both. |
| `Dnp3Crc.DetectsSingle` | src/app-layer-dnp3.c:184-205 | A block that passes fails after any single octet is altered. |
| `Dnp3Framing.ChecksExactly` | src/app-layer-dnp3.c:227-249 | The user data check accepts exactly the octets a sender produces: data is accepted if and only if adding CRCs to its stripped form gives it back. |
| `Dnp3Framing.CheckUserDataCRCs` | src/app-layer-dnp3.c:227-249 | The loop, calling the table-driven check, answers whether every block of at most 16 octets carries its CRC. |
| `Dnp3Framing.StripAdd` | src/app-layer-dnp3.c:382-450 | Stripping undoes adding a CRC after each 16 octets, for every payload. |
| `Dnp3Framing.RoundTrip` | src/app-layer-dnp3.c:339-450 | A framed payload is given back without its transport octet and fills the allocation exactly; reassembly refuses it if and only if it has fewer than two octets. |
| `Dnp3Framing.Reassemble` | src/app-layer-dnp3.c:382-450 | Reassembly fails exactly without memory or on a length that does not end in a whole block of three octets or more; otherwise it appends the stripped input minus the transport octet, as many octets as were allocated. |
| `Dnp3Framing.FrameStrippable` | src/app-layer-dnp3.c:539-560 | A frame announced with at least two user octets has a data part that can always be stripped, to the announced length. |
| `Dnp3Framing.AddCrcsLength` | src/app-layer-dnp3.c:539-560 | The link length calculator gives the length of header plus payload with its CRCs. |
| `Dnp3Link.ExamineFrame` | src/app-layer-dnp3.c:1059-1125 | The checks on one frame, made by the table-driven code, give the verdict of the stream scanner. |
| `Dnp3Link.HandleLinkLayer` | src/app-layer-dnp3.c:1059-1125 | The loop over one input takes the actions of the stream scanner, in order, and reports how much it consumed, or an error. |
| `Dnp3Link.VerdictStable` | src/app-layer-dnp3.c:1059-1125 | More input never changes a verdict already reached on what is there. |
| `Dnp3Link.ScanAppend` | src/app-layer-dnp3.c:1059-1125 | Scanning a stream in two parts takes the same actions, meets the same error and leaves the same residue as scanning it at once. |
| `Dnp3Link.RestBound` | src/app-layer-dnp3.c:1059-1125 | What waits for more input is always shorter than a maximal frame of 292 octets. |
| `Dnp3Stream.SegmentationInvariance` | src/app-layer-dnp3.c:1059-1186 | However a request stream is cut into segments, the same frames are handled in the same order up to the same link error as in one call, and without an error the same residue, below 292 octets, is left. |
| `Dnp3Stream.HeardStream` | src/app-layer-dnp3.c:1272-1326 | In both directions the parser takes the actions, meets the error and keeps the residue of the stream that is left when the segments taken for a banner are removed. |
| `Dnp3Stream.ResponseSegmentation` | src/app-layer-dnp3.c:1272-1326 | A response stream is handled like the whole stream at once, actions, error and residue, if no segment with a banner arrives while nothing waits; and unless both ways meet a link error, only then. |
| `Dnp3Stream.CutMatters` | src/app-layer-dnp3.c:1296-1301 | Every response that contains a banner leaves nothing when it arrives at once, and is scanned, with a different outcome, when it is cut after its first octet. |
| `Dnp3Stream.ErrorHidesBanner` | src/app-layer-dnp3.c:1272-1326 | Where both ways meet an error the cut need not show: two segments without a DNP3 start, the first with a banner, fail like the two at once although the first is ignored. |
| `Dnp3Stream.StreamParser.ParseRequest` | src/app-layer-dnp3.c:1135-1186 | The request parser takes the actions of the scanner on what waits plus the input, also those before a link error or before the residue finds no memory, succeeds exactly if there is neither, and buffers exactly the residue; otherwise the buffer is emptied. |
| `Dnp3Stream.StreamParser.ParseResponse` | src/app-layer-dnp3.c:1272-1326 | The response parser does the same, except that it ignores an input with a banner while nothing waits. |
| `Dnp3Stream.StreamParser.Consume` | src/app-layer-dnp3.c:1150-1178 | The buffered and the direct path, with trimming and growth, scan what waits plus the input and keep the residue; the buffered path does nothing when the input finds no memory, the direct path acts first and fails when the residue finds none. |
| `Dnp3Stream.Buffer.Add` | src/app-layer-dnp3.c:618-639 | Appends the data to what waits, enlarging the allocation when needed; without memory nothing changes. |
| `Dnp3Stream.Buffer.Trim` | src/app-layer-dnp3.c:649-660 | Moves what waits to the front without changing it. |
| `Dnp3Stream.Buffer.Reset` | src/app-layer-dnp3.c:603-607 | Empties the buffer. |
| `Dnp3Transport.HandledIsAccepted` | src/app-layer-dnp3.c:1059-1125 | What the link layer passes on is one whole frame with start octets, good header CRC, a user-data function code, room for the headers of its direction and good block CRCs. |
| `Dnp3Transport.AcceptedIff` | src/app-layer-dnp3.c:1059-1125 | A frame by itself is passed on whole if and only if it has all of these. |
| `Dnp3Transport.AcceptedSizes` | src/app-layer-dnp3.c:588-598 | A frame that is passed on can always be stripped, to the announced number of user octets. |
| `Dnp3Transport.RunGood` | src/app-layer-dnp3.c:882-1051 | After every run of frames and frees, transactions are well assembled, numbered in order, counted, and the current one is in the list. |
| `Dnp3Transactions.TransactionAssembly` | src/app-layer-dnp3.c:882-1051 | In every run each transaction is traced to increasing positions of the run: the events there received its segments, in its direction, with memory exactly where the segment was kept; the first started it, and no segment it waited for went past it unless an older transaction took it. The segments are one FIR and its continuations with the same addresses and consecutive numbers mod 64; the buffer is the kept payloads in order, at most 63*255+249 octets; it is done exactly after FIN, after outgrowing the limit or, for a request, after a segment without memory. |
| `Dnp3Trace.Trace` | src/app-layer-dnp3.c:882-1051 | The positions exist for every transaction of every run. |
| `Dnp3Trace.CreatedStays` | src/app-layer-dnp3.c:917-935 | Given memory, every FIR segment that is not a request confirm starts a transaction, numbered by how many were started before, which stays in the list until it is freed. |
| `Dnp3Transactions.WholeMessage` | src/app-layer-dnp3.c:882-1051 | The buffer is the concatenation of all payloads received for the transaction if and only if there was memory at each of the events that received them. |
| `Dnp3Transactions.ResponseLosesSegment` | src/app-layer-dnp3.c:1022-1051 | For every two-part response: when there is no memory for the first part and there is for the last, the run ends with one transaction that is done, whose buffer is the last payload alone, and whose flag and objects are the decoding of that. |
| `Dnp3Transactions.TwoPartExists` | src/app-layer-dnp3.c:882-1051 | Two frames, built with the CRCs of a sender and passed on by the link layer, form such a response. |
| `Dnp3Transactions.DecodedMessage` | src/app-layer-dnp3.c:958-963 | In every run a message whose last segment was kept with FIN within the length limit holds at least the application header subtracted from it, and `complete` and the objects are what the object decoder makes of the octets behind it; no other transaction is decoded. |
| `Dnp3Transactions.DoneNeverChanges` | src/app-layer-dnp3.c:882-1051 | A transaction that is done stays as it is for the rest of every run. |
| `Dnp3Transactions.Bookkeeping` | src/app-layer-dnp3.c:499-526 | In every run the unreplied counter is the list length, flooded means at least max-tx and not flooded at most max-tx, and the cached transaction is one the linear search finds. |
| `Dnp3Transactions.IterationTheorem` | src/app-layer-dnp3.c:1540-1572 | In every run, following the iterator while it promises more yields each transaction with id in [min, max) once and in order. |
| `Dnp3Transactions.AbsorbSegment` | src/app-layer-dnp3.c:937-963 | The shared tail of both handlers: reassembly, length limit, FIN and the call of the object decoder. |
| `Dnp3Transactions.FlowState.HandleUserData` | src/app-layer-dnp3.c:882-1051 | The handlers, with CRC check, continuation search and confirm exception, update the state exactly as the run model does. |
| `Dnp3Transactions.FlowState.AllocTx` | src/app-layer-dnp3.c:499-526 | Allocation appends the transaction, makes it current, counts it and raises the flood flag as the run model does. |
| `Dnp3Transactions.FlowState.FreeTx` | src/app-layer-dnp3.c:1394-1431 | Freeing removes the first transaction with the id, if any, and keeps counter, flood flag and current transaction as the run model does. |
| `Dnp3Transactions.FlowState.GetTx` | src/app-layer-dnp3.c:1328-1347 | The lookup through the cached transaction agrees with the linear search. |
| `Dnp3Transactions.FlowState.NextTx` | src/app-layer-dnp3.c:1540-1572 | The iterator loop computes the iteration step of the theorem above. |
| `Dnp3Session.CutsDoNotShow` | src/app-layer-dnp3.c:1059-1326 | Segments of both directions and cleanups of transactions in any order: two histories that send the same requests between the same responses and cleanups, cut into segments in whatever way, end with the same transactions, the same octets waiting in both directions, and are stopped by a link error together. |
| `Dnp3Session.RequestTransactions` | src/app-layer-dnp3.c:882-1186 | The transactions of a request stream, however it is cut, are those of the frames the scanner finds in it as a whole. |
| `Dnp3Session.CutTurn` | src/app-layer-dnp3.c:1135-1326 | In both directions a segment may arrive in two parts, without a difference to buffers and transactions, if neither part nor the whole is taken for a banner. |
| `Dnp3Session.EverySession` | src/app-layer-dnp3.c:882-1431 | Whatever both sides send, the transaction list stays good (numbers, counters, assembled and decoded messages), and less than a maximal frame waits in each direction. |
| `Dnp3Objects.DecodeSound` | src/app-layer-dnp3-objects.c:293-490 | A successful non-packed decode consumed exactly the encoding of `count` points that fit the fields, and stored those points in order. |
| `Dnp3Objects.DecodeEncode` | src/app-layer-dnp3-objects.c:293-490 | Every sequence of fitting points is decoded into exactly those points, and the cursor stops right behind them, whatever follows. |
| `Dnp3Objects.PlainPoints` | src/app-layer-dnp3-objects.c:354-490 | On success exactly `count` points are stored; the index is the prefix for codes 1 to 3 and otherwise start + i mod 2^32; the size is the prefix for codes 4 to 6 and otherwise 0. |
| `Dnp3Objects.PackedPoints` | src/app-layer-dnp3-objects.c:391-437 | A packed decoder succeeds if and only if prefix and count / 8 + 1 octets are there; it never stores more than `count` points, stores what those octets hold, and each point is made of the bits of its place. |
| `Dnp3Objects.SingleBitPoints` | src/app-layer-dnp3-objects.c:391-437 | A single-bit decoder stores exactly `count` points, the i-th being bit i % 8 of octet i / 8. |
| `Dnp3Objects.SizePrefixExact` | src/app-layer-dnp3-objects.c:6987-7060 | A point that ends in a field running to its size prefix takes exactly as many octets as the prefix says. |
| `Dnp3Objects.EarlyRejectionHarmless` | src/app-layer-dnp3-objects.c:439-460 | The early rejection of inputs shorter than count / 8 changes no verdict when every point takes an octet. |
| `Dnp3Application.EarlyRejectionExactly` | src/app-layer-dnp3-objects.c:8147-8207 | Over all known objects, the early rejection changes a verdict if and only if the object is 120:9, has no prefix, and the input is shorter than count / 8. |
| `Dnp3Application.OnlyOneCanBeEmpty` | src/app-layer-dnp3-objects.c:8957-9572 | Among all known objects only the points of 120:9 can take no octets. |
| `Dnp3Application.SizePrefixConsumption` | src/app-layer-dnp3-objects.c:7591-7926 | Each point of a successfully decoded 70:4-6, 70:8, 120:1, 2, 5-8, 14 or 15 object takes exactly its prefix. |
| `Dnp3Application.SizePrefixedSchema` | src/app-layer-dnp3-objects.c:6987-7060 | These variations end in a field that runs to the end of the prefix, with a two-octet prefix demanded or a length limit. |
| `Dnp3Application.DecodeBound` | src/app-layer-dnp3-objects.c:84-383 | However it ends, a decoder stores at most `count` points and never moves the cursor back. |
| `Dnp3Application.OneObject` | src/app-layer-dnp3.c:720-861 | One turn of the object loop either stops or goes on with strictly fewer octets. |
| `Dnp3Application.BudgetTheorem` | src/app-layer-dnp3.c:706-873 | For every buffer and every pair of limits at most the configured objects and points are stored, also when a decoder fails part way or the 32-bit count wraps. |
| `Dnp3Decoder.Cursor.Read` | src/app-layer-dnp3-objects.c:84-288 | A reader takes all its octets or none, and the read position advances by what the length decreases. |
| `Dnp3Decoder.ReadPoint` | src/app-layer-dnp3-objects.c:439-490 | The field reads of one point compute the field interpreter, cursor included. |
| `Dnp3Decoder.DecodePlainObject` | src/app-layer-dnp3-objects.c:439-490 | The counting loop of a non-packed decoder computes the decoding function of the theorems, on success and on failure. |
| `Dnp3Decoder.DecodePackedObject` | src/app-layer-dnp3-objects.c:391-437 | The nested loops of a packed decoder compute the unpacking function of the theorems. |
| `Dnp3Decoder.UnpackBits` | src/app-layer-dnp3-objects.c:409-428 | The inner loop takes the points of one octet in bit order while points are wanted. |
| `Dnp3Decoder.TakeObject` | src/app-layer-dnp3.c:720-861 | One turn of the object loop on the cursor: header, limits, range, decoder. |
| `Dnp3Decoder.DecodeApplicationObjects` | src/app-layer-dnp3.c:706-873 | The object loop stores what the decoding function gives, within both budgets. |
| `FrameModel.LeftEdgeTheorem` | src/app-layer-frames.c:258-408 | Over every run in which frames start at or after the progress, no complete frame is reopened and no slide passes the edge: the absolute left edge never goes back, lies between stream base and progress, never passes what a stored frame still needs, and whenever it was just recomputed is exactly the least of these, at most 2500 behind the progress. |
| `FrameModel.EdgeAfterLength` | src/app-layer-frames.c:258-304 | Setting a length moves the edge of a frame, as far as it counts (never beyond the progress), back if and only if it reopens a complete frame; a frame of unknown length is never affected. |
| `FrameModel.ReopeningMovesBack` | src/app-layer-frames.c:258-408 | With the left edge at the progress, a new length followed by a recomputation moves the edge back if and only if it reopens the frame. |
| `FrameModel.ReopenedRun` | src/app-layer-frames.c:258-408 | A run that respects everything up to a length that reopens a complete frame, after which the left edge goes back from 10 to 0. |
| `FrameModel.EdgeIsLeast` | src/app-layer-frames.c:258-304 | The recomputed edge is the least of the progress and the edges of the frames kept, and at most 2500 behind the progress. |
| `FrameModel.StepNeeded` | src/app-layer-frames.c:736-835 | Every single event keeps what frames still need to the right of the edge. |
| `FrameModel.KeepExactly` | src/app-layer-frames.c:343-391 | A sequence is what a pass leaves if and only if its ids increase and it has exactly the frames the pass does not remove. |
| `FrameModel.StoreTheorem` | src/app-layer-frames.c:162-238 | In every run ids increase strictly along the store and never exceed the last id given, and there are at most 3 + 256 frames. |
| `FrameModel.IdsNotReused` | src/app-layer-frames.c:162-238 | A frame whose id had been given by some time of the run was in the store then, and but for its length it is still the same. |
| `FrameModel.CreationFails` | src/app-layer-frames.c:162-227 | Creation fails if and only if 3 + 256 frames are stored, or the slots are used up and memory is not to be had; growth goes 0, 8, 16 up to 256. |
| `FrameStore.Frames.New` | src/app-layer-frames.c:162-227 | A new frame takes the next slot and id; as that slot is zeroed all its other fields are clean. |
| `FrameStore.Frames.Grow` | src/app-layer-frames.c:173-222 | Growing keeps the frames and zeroes the new slots. |
| `FrameStore.Frames.Compact` | src/app-layer-frames.c:343-391 | The in-place loop over static and dynamic slots leaves exactly the filtered frames in order, zeroes every other slot, and computes the edge of the frames kept. |
| `FrameStore.Frames.Slide` | src/app-layer-frames.c:329-408 | A slide keeps the frames not left behind and stores the edge relative to the new base, truncated to 32 bits. |
| `FrameStore.Frames.Prune` | src/app-layer-frames.c:736-835 | A prune keeps the frames not done (none at the end of the stream) and stores the edge relative to the base, truncated to 32 bits. |
| `FrameStore.Frames.GetById` | src/app-layer-frames.c:125-143 | The search finds the first frame with the id, or none if there is none. |
| `FrameStore.Frames.SetLength` | src/app-layer-frames.c:668-680 | Only the length of the frame with the id changes. |
| `ProbeRegistry.LookupTheorem` | src/app-layer-detect-proto.c:434-461 | After every sequence of registrations the protocols found for a port and direction are exactly those acceptably registered for that port or for the wildcard, and every parser found carries the arguments of such a registration. |
| `ProbeRegistry.RegistryTheorem` | src/app-layer-detect-proto.c:953-1151 | After every sequence of registrations each port list has unique ports with the wildcard last, every registered port has an entry, and the depth of each side is unlimited if one of its parsers is and otherwise their greatest. |
| `ProbeRegistry.OrderIrrelevant` | src/app-layer-detect-proto.c:981-1151 | The protocols found do not depend on the order of registration. |
| `ProbeTable.ProbingParsers.Insert` | src/app-layer-detect-proto.c:981-1151 | A registration edits the port list exactly as the registration function of the theorems. |
| `ProbeTable.EnsurePort` | src/app-layer-detect-proto.c:1002-1064 | A missing port entry is created before the wildcard with copies of the wildcard parsers. |
| `ProbeTable.Append` | src/app-layer-detect-proto.c:1106-1116 | The three depth tests and the append on one side. |
| `ProbeTable.WidenEveryPort` | src/app-layer-detect-proto.c:1118-1147 | A wildcard parser is appended to its own entry and to every entry before it. |
| `ProbeTable.ProbingParsers.GetProbingParsers` | src/app-layer-detect-proto.c:434-461 | The search finds the first entry for the port or the wildcard. |
| `ProbeTable.ProbingParsers.HasProbingParsers` | src/app-layer-detect-proto.c:463-477 | The answer is yes if and only if some registration so far acceptably names the protocol for the port or the wildcard. |
| `Probing.CompletionTheorem` | src/app-layer-detect-proto.c:543-697 | Over every run of packets without a match and fewer than 32 parsers: a parser is masked if and only if some packet was shown to it and made it fail or exceeded its depth, and probing is done if and only if there was a packet and every parser has given up. |
| `Probing.NeverCalledAgain` | src/app-layer-detect-proto.c:495-534 | A parser that has given up stays masked and is not called for any later packet. |
| `Probing.CalledUntilThen` | src/app-layer-detect-proto.c:495-534 | Until it gives up a parser is called for exactly the packets with at least its minimum depth. |
| `Probing.MatchIsFirst` | src/app-layer-detect-proto.c:495-534 | The protocol found is the answer of the first parser that is shown the packet and names one; there is none if and only if no such parser does. |
| `Probing.WalkJoined` | src/app-layer-detect-proto.c:648-656 | Walking the destination list and then the source list is one walk over both. |
| `Probing.GetProto` | src/app-layer-detect-proto.c:495-534 | The loop computes the walk of the theorems, mask and counter included. |
| `Probing.GetProtoUnmasked` | src/app-layer-detect-proto.c:495-534 | The same loop without a mask. |
| `Probing.FlowProbing.PPGetProto` | src/app-layer-detect-proto.c:543-697 | One packet updates mask and done flag exactly as in the runs of the theorems. |
| `ProbeMask.FullIff` | src/app-layer-detect-proto.c:658-663 | A mask of n bits equals (1 << n) - 1 if and only if all n bits are set. |
| `ProbeMask.MaskedOr` | src/app-layer-detect-proto.c:503-526 | Setting a bit masks that parser and no other. |
| `ExpectationModel.CounterTheorem` | src/app-layer-expectation.c:123-279 | In every run of creations, passes and teardowns each queue is non-empty, holds at most ten, its length field is its size, and the counter is never below the sum of the lengths. |
| `ExpectationModel.EarlyExitAgrees` | src/app-layer-expectation.c:301-387 | In every run the early exit at counter zero has the effect and the result of a full lookup. |
| `ExpectationModel.QueueTheorem` | src/app-layer-expectation.c:183-279 | In every run the queue of a pair is, newest first, exactly what was created for it and not removed since, without the records that had ten newer unremoved ones in front of them; it never exceeds ten. |
| `ExpectationModel.OutrankedIff` | src/app-layer-expectation.c:217-279 | A record is left out if and only if at some time of the run it had ten newer unremoved ones in front of it. |
| `ExpectationModel.WaitsIff` | src/app-layer-expectation.c:217-279 | So an unremoved expectation waits, at its place, if and only if it never had ten newer unremoved ones in front of it. |
| `ExpectationModel.PassRemovesAll` | src/app-layer-expectation.c:301-387 | After a handle or clean, an expectation of the pair waits if and only if it did before and is neither matched nor timed out (or not of the flow); other pairs are unchanged. |
| `ExpectationModel.HandledIsLast` | src/app-layer-expectation.c:318-343 | The result of a handle is the protocol of the oldest match; without a match the flow is unchanged. |
| `ExpectationModel.HandledFills` | src/app-layer-expectation.c:321-327 | Protocols the flow knows stay; an unknown one becomes that of the newest match that names one. |
| `ExpectationQueue.Expectations.Create` | src/app-layer-expectation.c:217-279 | Creation inserts at the head and evicts the oldest at ten, exactly as in the runs of the theorems. |
| `ExpectationQueue.Expectations.Handle` | src/app-layer-expectation.c:301-357 | The walk with removal leaves, returns and writes to the flow what the theorems describe. |
| `ExpectationQueue.Expectations.Clean` | src/app-layer-expectation.c:359-387 | The walk with removal drops exactly the expectations the flow raised. |
| `ExpectationQueue.Expectations.Remove` | src/app-layer-expectation.c:183-197 | Removal decrements length and counter, and the last one takes the queue down. |
| `ExpectationQueue.Expectations.Free` | src/app-layer-expectation.c:123-138 | A torn down pair loses its queue; the counter stays. |

## Left out

- HttpRange: fragment buffers are byte sequences and the red-black tree is its sorted sequence, because the tree library is not part of this model; sharing of buffers is not captured.
- HttpRange: 64-bit wrap-around of sizes and offsets, the hash table itself, timeouts and the upper bound asserted on use counts.
- RangeContent.PrefixTheorem: speaks of gap-free data of one resource; ownership and memory are proved for gaps and mixed resources too.
- RangeOrder.OrderIndependence: entry k is not evicted during the run, and ranges are below 4 GiB; the same holds of AllDelivered, LongestPrefix and OnlyDeliveryMatters.
- RangeDelivery.LongestPrefix: excludes every close that leaves something behind; such a close makes the file short in the runs of `RangeLeftovers`, but in others a later close may still merge what it left.
- Dnp3Session.CutsDoNotShow: buffers are taken to find memory, as a failed allocation comes at a segment and so depends on the cut; memory for transactions and their data may fail at any frame. Responses keep their cut. That a link error stops both directions is lines 1512-1519 of `src/app-layer-parser.c`.
- Dnp3Transport: decoder events and logging flags are not kept; the `segs` history of a transaction has no counterpart in the source and is tied to the events of the run by `Trace`.
- Dnp3Objects: memory failure inside a decoder, the meaning of field values (floats, bit flags, times are their octets), and 16-bit wrap of the buffer length.
- Dnp3Objects.PackedPoints: for two-bit objects count / 8 + 1 octets do not hold all points, so the number stored is what they hold.
- FrameModel: 64-bit wrap-around of offset plus length; events, transaction ids and the search by type of a frame, which would add only easy members.
- FrameModel.LeftEdgeTheorem: requires that progress less stream base fits 32 bits at each recomputation, as the source validates.
- ProbeRegistry: registrations without a port (WebSocket), and pattern matching; IP protocols are the keys of a map.
- ProbeRegistry.LookupTheorem: gives the protocols as a set; after a wildcard registration a port may list a protocol twice.
- Probing: the midstream retry and the reverse-flow flag; the mask is a number with its binary digits instead of a machine word.
- ExpectationModel: ownership of the data attached to an expectation, reference counts of host pairs, and wrap-around of the 32-bit counter.
- Multi-pattern matching, streaming buffers, other protocols' parsers, logging, configuration and rule inspection are not part of this model.
