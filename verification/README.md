# File transfer of Project Coconut: model and proofs

This project models the parts of the desktop client that move files and
messages, and proves what they promise about each other.

- **Wire formats** (`BigEndian`, `Streams`, `Framing`, `Tables`). Byte frames and
  messages, the readers and writers over a connection, and the shared command and
  error tables. A reader is the sequence of its unread bytes with the semantics of
  `io.ReadFull`; a writer appends, and each of its writes may fail after any number
  of bytes.
- **Chunked transfer** (`Crypto`, `Chunks`, `Deliveries`, `Acceptance`,
  `ChunkFiles`). The sending and receiving loops over numbered, sealed chunks. The
  ciphers are parameters of a `Suite`; everything assumed about them is the predicate
  `Crypto.Lawful`, and `Crypto.PlainSuite` shows that it can be met. Run-time panics
  (a wrong IV length, a plaintext too short to slice) are results of their own.
- **Buffered copy and whole files** (`BinaryFiles`, `Directories`). The copying loop
  through a reused buffer and the receiver that publishes by renaming.
- **Client** (`Demux`, `DemuxRouting`, `DemuxRuns`, `DemuxProgress`,
  `DemuxInterference`, `DemuxReturns`, `DemuxHistories`). The goroutine that routes
  messages into per-command channels, interleaved with the calls, as a step system: a
  channel has an identity, and looking one up and using it are separate steps.
- **File list** (`FileLists`). Rows, known paths and totals under batches of adding
  and removing.

Every method is proved against a function of its inputs, and the results below are
proved about these functions for all inputs or all runs.

## What turned out false, and when it holds

- A file of more than 65535 chunks is not delivered whole: its chunk count does not
  fit 16 bits, the receiver stops at whatever count was sent and reports success.
  `Deliveries.RoundTrip` and `Deliveries.TakenExact` show that delivery is whole, and
  every cut noticed, exactly up to that size.
- Chunk numbers repeat after 65536. Up to that many chunks, whatever the order of the
  frames, the temp file is the file's beginning (`Deliveries.ShuffledPrefix`); with
  more, chunk 65536 is taken for the first (`Deliveries.WrappedChunkTaken`).
- `handleGetPubKey` registers and deletes its channel under the key of `GADC`, so a
  `GADC` call can be cut off. In every run each call reads only the first of its own
  messages, in order (`DemuxInterference.NothingCrossed`). None is missing, throughout
  a run, if and only if the handler never looks a `GADC` message up while the entry of
  a registered `GADC` call is gone (`DemuxInterference.CompleteExactly`). A call that
  was cut off can still return its result if and only if it has read its last reply,
  or is already waiting for it and the reply is in its channel
  (`DemuxReturns.ClobberedFinishesExactly`). `DemuxRuns.InterferenceHangs` is a run in
  which it waits for ever; `DemuxInterference.InterferenceLoses` goes on to lose its
  reply.
- When the connection ends, the handler stops without telling anyone. A call that has
  its entry, or has deleted it itself, can then return its result if and only if its
  channel holds every reply it still reads; one whose entry is missing, if and only if
  it waits on its own channel for its last reply and the reply is there, or has read
  it (`DemuxReturns.StoppedRuns`). Otherwise it can at most fail on a write or its key
  file; `DemuxReturns.ReplyLost` is a run that ends this way.
- The comment in `readNBinary` promises that the temp file is deleted on errors; after
  a failed close it stays (`BinaryFiles.ReadNBinary`). `Decrypt` removes it only when
  closing or renaming fails, not when the transfer does.
- `ReadBinary` stores a file that arrives with an error code and returns the code
  beside a nil error.
- A path whose size could not be read once stays in `fileMap` without a row, and can
  never be shown again (`FileLists.HiddenForever`, `FileLists.UnreadableHiddenForever`).

## Model

| member | source | states |
|---|---|---|
| Tables.ErrorTableInverse | pkg/common/errors.go:23-37 | an error's code is its index in the table, both ways; the empty entries are exactly 0 and those above 12 |
| Tables.CommandTableInverse | pkg/common/commands.go:8-22 | every command sits at the index its code names |
| Tables.CommandNamesDistinct | pkg/common/commands.go:24-85 | command strings are distinct, so the channel map is keyed by the command |
| BigEndian.Uint32RoundTrip | pkg/util/util.go:105-119 | the 4-byte size encoding is a bijection on uint32 |
| BigEndian.PlaceValues | pkg/util/util.go:105-138 | the most significant byte comes first |
| BigEndian.Uint16RoundTrip | pkg/util/util.go:128-138 | a 16-bit number read back, also in front of more bytes, is its low 16 bits |
| BigEndian.IntToUint32 | pkg/util/util.go:190-206 | accepts exactly the uint32 range, and then encodes without loss |
| Streams.Stream.ReadFull | pkg/util/util.go:173-186 | fills exactly what it read; EOF only when nothing was there, UnexpectedEOF in between |
| Framing.ReadBytesErrExact | pkg/util/util.go:410-440 | a read succeeds exactly on streams that start with a frame, and gives its data and the entry of its code byte |
| Framing.Layout | pkg/util/util.go:69-102 | where size, error byte, command byte and data are in a frame and in a message |
| Framing.DecodeErrorByteExact | pkg/util/util.go:368-384 | table errors and nil survive encoding; a byte without an entry becomes UnknownCodeError |
| Framing.ByteFrameRoundTrip | pkg/util/util.go:395-440 | data and error come back as written and the reader stops behind the frame |
| Framing.ReadBytesExact | pkg/util/util.go:395-406 | ReadBytes accepts exactly the frames with code 0 |
| Framing.ReadBytesCoded | pkg/util/util.go:395-406 | a frame with any other code is read to its end and refused with the table entry of the code, or UnknownCodeError when it has none |
| Framing.ReadBytesRefused | pkg/util/util.go:395-406 | a frame written with an error is refused with that error |
| Framing.ReadBytesCut | pkg/util/util.go:395-440 | which error a cut frame gives, by the position of the cut; a cut behind it changes nothing |
| Framing.ReadFramesExact | pkg/util/util.go:395-440 | n frames in a row are read back as bs, leaving rest, if and only if the stream is the frames of bs followed by rest |
| Framing.ReadMessageExact | pkg/util/util.go:41-64 | ReadMessage returns m and leaves rest if and only if the stream is m's frame followed by rest |
| Framing.MessageStreamRoundTrip | pkg/util/util.go:41-102 | messages written back to back are read back in order, later bytes stay unread |
| Framing.EncodingInjective | pkg/util/util.go:69-102 | two lists of messages give the same bytes only if they are equal |
| Framing.CutStream | pkg/util/util.go:41-64 | the read loop on a stream cut anywhere returns exactly the whole messages before the cut, then EOF if the cut is at offset 0, 4 or 6 of the unfinished one and UnexpectedEOF otherwise |
| Framing.WholeMessagesExact | pkg/util/util.go:41-64 | the number of whole messages before a cut is the largest that fits |
| Framing.ReadMessage | pkg/util/util.go:41-64 | reads as the function the lemmas are about; beside an error of reading the data, the message holds what was read in a zeroed buffer of the announced size |
| Framing.ReadBytesErr | pkg/util/util.go:410-440 | reads as the function the lemmas are about, and returns the error entry also beside an error of reading the data |
| Framing.ReadUntilError | internal/client/client.go:134-150 | the loop dispatches exactly what reading on to the first error yields |
| Framing.WriteMessage | pkg/util/util.go:69-102 | on nil the frame is on the wire, on an error a prefix of it; data of 4 GiB or more is refused with nothing written |
| Framing.WriteBytesErr | pkg/util/util.go:499-534 | nil exactly if the size fits and both writes succeed; on an error a prefix of the frame is on the wire, and nothing is counted unless the header was written |
| Crypto.SignedMessageRoundTrip | pkg/cryptography/rsa.go:193-236 | what was encrypted and signed for a key pair is read and verified by its owner |
| Crypto.VerifiedExactly | pkg/cryptography/rsa.go:215-236 | a key is read if and only if it decrypts and the signature of its hash verifies; which error each failing check gives |
| Crypto.SignedExactly | pkg/cryptography/rsa.go:193-212 | what is sent is the encrypted message and the signature of its hash, or an error if either step fails |
| Crypto.PlainSuiteLawful | pkg/cryptography/aes_gcm_chunks.go:244-269 | the assumptions about the ciphers can be met |
| Deliveries.ChunkArithmetic | pkg/cryptography/aes_gcm_chunks.go:78-91 | offset guard and count guard admit the same chunks; all are non-empty and at most ChunkSize; the count fits 16 bits exactly up to the size limit |
| Deliveries.GenuineChunk | pkg/cryptography/aes_gcm_chunks.go:406-430 | the sender's chunk i is accepted with its data iff number i is due, and refused as out of order otherwise |
| Deliveries.RoundTrip | pkg/cryptography/aes_gcm_chunks.go:126-401 | any name and content, followed by any bytes, are delivered and the reader stops behind them, if and only if the file is within 65535 chunks |
| Deliveries.BackToBack | pkg/cryptography/aes_gcm_chunks.go:275-401 | transfers sent one after the other are all delivered, in order |
| Deliveries.DeliveryCut | pkg/cryptography/aes_gcm_chunks.go:275-359 | any stream that delivers a file fails at the end of the stream when cut before the last byte it needs, and delivers the same when cut behind it |
| Deliveries.TruncationDetected | pkg/cryptography/aes_gcm_chunks.go:275-359 | a prefix of the sender's bytes fails exactly if it lacks a byte the receiver takes, whatever the disk does |
| Deliveries.TakenExact | pkg/cryptography/aes_gcm_chunks.go:80-91 | the receiver takes all bytes, so every strict prefix fails, exactly up to the size limit |
| Deliveries.ReceiveShuffled | pkg/cryptography/aes_gcm_chunks.go:333-359 | for every file, count and order of chunk frames: the accepted chunks are the first whose 16-bit numbers are due, the temp file and the offset grow by exactly their data, and the error says why the loop ended |
| Deliveries.ShuffledPrefix | pkg/cryptography/aes_gcm_chunks.go:333-359 | up to 65536 chunks, whatever the order and the announced count, the temp file is the file's beginning |
| Deliveries.WrappedChunkTaken | pkg/cryptography/aes_gcm_chunks.go:406-430 | with more than 65536 chunks, chunk 65536 alone is taken for the beginning, and for the whole file exactly if one chunk is announced |
| Deliveries.ReorderingDetected | pkg/cryptography/aes_gcm_chunks.go:406-430 | within the size limit, reordered, repeated or missing chunks deliver the file iff they begin 0, 1, 2, ... to the last, otherwise there is an error; also with any disk faults, only that order can deliver, and it delivers the file |
| Deliveries.NeverIncomplete | pkg/cryptography/aes_gcm_chunks.go:333-398 | for every stream and disk fault, a transfer that does not fail has accepted exactly the announced number of chunks, so the branch for missing chunks is never taken |
| Deliveries.WriteFaultStops | pkg/cryptography/aes_gcm_chunks.go:333-359 | when the first failing write is that of chunk j, the transfer ends with its error, chunk j counted and the temp file the file's beginning up to what that write took |
| Acceptance.DeliveredExactly | pkg/cryptography/aes_gcm_chunks.go:275-430 | a file is delivered exactly from streams that begin with key frames that decrypt and whose signature verifies, an opening name and the announced number of opening chunks numbered in order |
| Acceptance.KeyOutcome | pkg/cryptography/aes_gcm_chunks.go:275-300 | what any two frames in the place of key and signature give: key and count, or the error of the first failing check |
| Acceptance.ChunkOutcome | pkg/cryptography/aes_gcm_chunks.go:333-430 | what any two frames in the place of chunk n give: its data, or the error of the first failing check |
| ChunkFiles.AesGcmChunk.EncryptSetup | pkg/cryptography/aes_gcm_chunks.go:53-92 | a fresh sender with the size and the 16-bit chunk count of its file |
| ChunkFiles.AesGcmChunk.EncryptChunk | pkg/cryptography/aes_gcm_chunks.go:213-240 | seals the next bytes behind the counter and advances counter and offset, with wrap-around |
| ChunkFiles.AesGcmChunk.SendChunks | pkg/cryptography/aes_gcm_chunks.go:174-199 | the loop reads the whole file and ends with offset = size and counter = number of chunks; whatever fails, the wire holds a prefix of the transfer |
| ChunkFiles.AesGcmChunk.Encrypt | pkg/cryptography/aes_gcm_chunks.go:126-208 | on nil the wire holds the whole transfer and the source could be closed, on an error the wire holds a prefix; without faults it returns nil; what it sends is a transfer the lemmas apply to |
| ChunkFiles.AesGcmChunk.DecryptSetup | pkg/cryptography/aes_gcm_chunks.go:95-120 | a fresh receiver whose empty temp file is in the directory under its name only |
| ChunkFiles.AesGcmChunk.DecryptChunk | pkg/cryptography/aes_gcm_chunks.go:406-430 | counts a chunk exactly if it opens and is due |
| ChunkFiles.AesGcmChunk.Publish | pkg/cryptography/aes_gcm_chunks.go:361-398 | nil exactly if all chunks were counted and closing and renaming succeed; otherwise the temp file is removed if possible, with the error of the first failing step, or of removing |
| ChunkFiles.AesGcmChunk.Decrypt | pkg/cryptography/aes_gcm_chunks.go:275-401 | for every stream and every outcome of write, close, rename and remove: nil exactly if the transfer did not fail and closing and renaming succeed, exactly if the temp file was renamed to the received name, and then all announced chunks were accepted; a failed transfer publishes nothing and returns its error |
| ChunkFiles.EncryptThenDecrypt | pkg/cryptography/aes_gcm_chunks_test.go:15-77 | over a connection that breaks anywhere, the receiver publishes exactly the sent file, or it returns an error and the directory is as before, at most without the temp file |
| BinaryFiles.CopySucceeds | pkg/util/util.go:279-300 | on a long enough stream the copy outputs, consumes and counts exactly the first size bytes |
| BinaryFiles.CopyStopsShort | pkg/util/util.go:279-300 | on a stream of m < size bytes it outputs the whole 4096-byte pieces of m and fails with EOF iff m is made of such pieces |
| BinaryFiles.CopyIsPrefix | pkg/util/util.go:279-300 | whatever the writer does, the output is a beginning of the stream |
| BinaryFiles.ReadWrite | pkg/util/util.go:279-300 | the loop through a reused buffer copies as the function without one, for any earlier buffer contents, and terminates |
| BinaryFiles.BinaryRoundTrip | pkg/util/util.go:444-479 | every non-empty name and content under 4 GiB come back and the reader stops behind them; an empty name is refused |
| BinaryFiles.BinaryWithCode | pkg/util/util.go:444-479 | a content behind any code byte is copied all the same, and the code is its table entry, UnknownCodeError or nil |
| BinaryFiles.BinaryWithError | pkg/util/util.go:444-479 | a file written with any error comes back with it |
| BinaryFiles.BinaryNameRefused | pkg/util/util.go:444-456 | a name that arrives with an error is refused with that error, and nothing is copied |
| BinaryFiles.BinaryCut | pkg/util/util.go:444-479 | on every strict prefix of a sent file the receiver fails, for any name and any disk faults; without faults and with a name, it fails exactly on the strict prefixes, at the end of the stream |
| BinaryFiles.WriteBinary | pkg/util/util.go:542-606 | on nil name and content are on the wire, on an error a prefix; files of 4 GiB or more are refused; the source is closed |
| BinaryFiles.ReadNBinary | pkg/util/util.go:306-364 | publishes the whole content or nothing; the temp file stays only after a failed close or remove |
| BinaryFiles.ReadBinary | pkg/util/util.go:444-479 | nil exactly if everything arrived and closing and renaming succeeded, and then the new file holds the content |
| DemuxRouting.StepKeeps | internal/client/client.go:124-320 | every step of every interleaving keeps the routing invariant, unless it clobbers a registered GADC call |
| DemuxRuns.RunConserves | internal/client/client.go:134-150 | messages are looked up in the order sent; none is lost or invented before |
| DemuxRuns.UnknownCodePanics | internal/client/client.go:143-145 | looking up a command code outside the table ends the client, and nothing else does |
| DemuxRuns.FullChannelBlocks | internal/client/client.go:34-35 | the handler blocks exactly on a channel of ten messages |
| DemuxRuns.RoutingOverRuns | internal/client/client.go:134-150 | for each registered call, consumed, queued and pending messages are in order exactly the server's messages of its command looked up since registration; finished calls read the first of them and returned the entry of the last read |
| DemuxInterference.ClobberCutsOff | internal/client/client.go:197-208 | registering or deleting the GADC entry under a registered call cuts the call off: neither the map nor the handler leads to its channel, and all other calls are in order |
| DemuxInterference.StepKeepsSound | internal/client/client.go:124-320 | every step whatever keeps every call either in order or cut off; a call that leaves takes the interference with it |
| DemuxInterference.NothingCrossed | internal/client/client.go:134-150 | in every run, with or without interference, what is consumed, queued and pending for a call are in order the first of the server's messages of its command looked up since registration; finished calls read the first of them and returned the entry of the last read |
| DemuxInterference.AddCodeReceived | internal/client/client.go:257-258 | in every run the add code is the data of the first reply to the GADC call |
| DemuxInterference.CompleteExactly | internal/client/client.go:143-149 | routing to all registered calls is complete at every point of a run if and only if no message for a registered GADC call is ever looked up while it has no entry |
| DemuxReturns.ClobberedFinishesExactly | internal/client/client.go:124-208 | in any run, after interference under a registered GADC call, some continuation lets it return its result if and only if it has read its last reply or waits on its own channel for it with the reply there |
| DemuxReturns.EndedFinishesExactly | internal/client/client.go:124-141 | once the handler stopped reading, a call that is not cut off can return its result if and only if its channel holds every reply it still reads |
| DemuxReturns.StoppedRuns | internal/client/client.go:134-141 | in any run up to the end of the connection, a call with its entry (or one that deleted it) can return its result if and only if its channel holds every reply it still reads; one whose entry is missing, if and only if it has read its last reply, or waits on its own channel for it and it is there |
| DemuxReturns.ReplyLost | internal/client/client.go:134-141 | a run in which the connection ends before the reply, and the call can never return its result |
| DemuxRuns.InterferenceHangs | internal/client/client.go:197-200 | a run in which answering a key request makes a GADC call wait on a nil channel |
| DemuxInterference.InterferenceLoses | internal/client/client.go:143-149 | the same run continued: a reply is looked up for the call and lost |
| DemuxRuns.HungForever | internal/client/client.go:124-127 | a call waiting on a nil channel waits in every continuation |
| DemuxHistories.HistoryFits | internal/client/client.go:212-320 | in every run, the steps of a call so far determine its phase: requests written, replies read, failures |
| DemuxHistories.ReturnsExactly | internal/client/client.go:212-320 | a call returns a write error exactly if one of its writes failed, NoPemBlock exactly if the first reply of RPUB held no key, and otherwise the table entry of its last reply, after writing 1 request (QUIT, GADC) or 2 and reading 2 replies (GADC, RPUB) or 1 |
| DemuxHistories.CallsCanFinish | internal/client/client.go:212-320 | when the server answers every request, every call under way can still return its result |
| DemuxReturns.FailedWriteEnds | internal/client/client.go:238-242 | a failed write ends the call without a result and without a request the server would answer |
| DemuxReturns.KeylessReplyEnds | internal/client/client.go:313-317 | a first reply without a key ends RPUB, one with a key does not |
| DemuxProgress.StepDecreases | internal/client/client.go:124-320 | with exact replies and no failures, every step that is not new work lowers the remaining work by one; new work is a call, or a request of this client's key outside GADC calls |
| DemuxProgress.NeverStuck | internal/client/client.go:134-150 | while work remains some step can be taken; the handler is never blocked for good |
| DemuxProgress.EverythingDrains | internal/client/client.go:197-320 | at every point the handler can deliver, no channel holds more than two messages, none waits outside the channel of a call under way or for one that read its last reply, and every returned call gave the entry of its last reply; without new work every continuation ends after exactly the remaining work, and only then no call, entry or message is left in map, channels or on the wire |
| FileLists.FileList.AddFilesToListStore | internal/client/ui.go:563-612 | appends the rows of new, readable paths once, in order, and keeps the totals those of the rows |
| FileLists.FileList.RemoveSelectedFiles | internal/client/ui.go:472-545 | deleting by stale ascending indices in reverse order leaves exactly the rows not selected or not readable, in order, and lowers the totals by exactly the removed rows |
| FileLists.RunsKeepInv | internal/client/ui.go:472-612 | after any batches paths are shown once and only if known |
| FileLists.AddShowsExactly | internal/client/ui.go:563-612 | which paths an add batch shows |
| FileLists.RemovedExactly | internal/client/ui.go:483-540 | removing leaves, in their order, exactly the rows not selected or not readable, and forgets exactly the paths of the others |
| FileLists.RemovedCanReturn | internal/client/ui.go:532-536 | a removed path is unknown again, so it can be added again |
| FileLists.HiddenForever | internal/client/ui.go:570-587 | a path that is known but has no row is never shown again |
| FileLists.UnreadableHiddenForever | internal/client/ui.go:570-587 | a path added to the empty list while its size cannot be read is never shown after any batches |
| FileLists.KeepSizes | internal/client/ui.go:537-540 | sizes of kept and dropped rows add up to those of all rows |

## Left out

- The ciphers, RSA, SHA-256 and random generation: parameters, with the laws of `Crypto.Lawful`. Failures of the random source and of building a cipher are not modelled.
- Opening and querying the source file, creating the download directory and the temp file: the model starts when these have succeeded. The source does not change while it is read.
- Path handling: a published file is identified by the name received; cleaning and joining of paths, and names that denote the same file, are not modelled.
- A reader that fails with an error of its own: streams end with EOF.
- Demux.Do: modelled on values as a state machine, since its steps belong to several goroutines; the contents of requests and the write of the public key are not part of the state, and the unsynchronised map is taken as atomic.
- DemuxProgress.EverythingDrains: covers runs in which the server owes its replies from the last request of a call on, asks for this client's key only outside `GADC` calls, which begin only when the key was sent, and in which no write of a request, read or key file fails; at most one call per command is in flight.
- FileLists.FileList.AddFilesToListStore: the list store accepts every row; the visible columns and labels are left out.
- DownloadPath, BytesToBase64, CheckIPAddress, configuration, contacts, logging, connecting and disconnecting, hole punching, and the user interface around the list: library calls or single branches.
- ReadBytesToWriter: its output is in neither wire format.
