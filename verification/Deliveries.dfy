// What the receiver makes of the sender's bytes: whole, cut, reordered, or not
// the sender's at all.
module Deliveries {
  import opened Tables
  import opened Base
  import opened BigEndian
  import opened Streams
  import opened Framing
  import opened Crypto
  import opened Chunks

  ghost predicate NoFaults(faults: nat -> Option<nat>) {
    forall i: nat :: faults(i) == None
  }

  // Chunk arithmetic

  // The sender's offset guard and the receiver's count guard admit the same
  // number of chunks, each non-empty and at most ChunkSize, which together
  // make up the file; the count fits 16 bits exactly up to the size limit.
  lemma ChunkArithmetic(size: nat, i: nat)
    ensures FullChunks(i) == i * 0x100_0000 && ChunkSize == 0x100_0000
    ensures i < ChunkCount(size) <==> FullChunks(i) < size
    ensures i < ChunkCount(size) ==> 0 < Offset(size, i + 1) - Offset(size, i) <= ChunkSize
    ensures Offset(size, ChunkCount(size)) == size
    ensures ChunkCount(size) <= 0xFFFF <==> size <= FullChunks(0xFFFF)
  {
  }

  lemma ChunkNext(content: seq<byte>, i: nat)
    ensures content[..Offset(|content|, i)] + Chunk(content, i) == content[..Offset(|content|, i + 1)]
    ensures |Chunk(content, i)| == Offset(|content|, i + 1) - Offset(|content|, i)
  {
  }

  // Genuine frames

  lemma GenuineSealed(suite: Suite, key: seq<byte>, iv: seq<byte>, plain: seq<byte>, rest: seq<byte>)
    requires Lawful(suite) && |key| == 32 && |iv| == 12 && |plain| + 16 <= 0xFFFF_FFFF
    ensures ReceiveSealed(suite, key, Framed([iv, suite.seal(key, iv, plain)]) + rest) == Got(Ok(plain), rest)
  {
    hide Framed;
    hide ReadFramesOf;
    var sealed := suite.seal(key, iv, plain);
    ReadFramesExact(Framed([iv, sealed]) + rest, [iv, sealed], rest);
    assert suite.open(key, iv, sealed) == Some(plain);
  }

  lemma GenuineChunk(suite: Suite, t: Transfer, i: nat, expected: nat, rest: seq<byte>)
    requires WellKeyed(suite, t)
    ensures ReceiveChunk(suite, t.key, expected, ChunkFrames(suite, t, i) + rest) ==
            Got(if expected == Wrap16(i) then Ok(Chunk(t.content, i)) else Err(ChunkIncorrectOrder), rest)
  {
    hide ReceiveSealed;
    hide Uint16ToByte;
    var plain := Uint16ToByte(i) + Chunk(t.content, i);
    GenuineSealed(suite, t.key, t.ivs(i + 1), plain, rest);
    Uint16RoundTrip(i, Chunk(t.content, i));
    assert plain[2..] == Chunk(t.content, i);
  }

  lemma GenuineKey(suite: Suite, t: Transfer, sender: nat, receiver: nat, rest: seq<byte>)
    requires Genuine(suite, t, sender, receiver)
    ensures ReceiveKey(suite, PublicKey(sender), PrivateKey(receiver), Framed([t.sealedKey, t.signature]) + rest)
            == Got(Ok((t.key, t.count)), rest)
  {
    hide Framed;
    hide ReadFramesOf;
    var msg := KeyAndCount(t.key, t.count);
    var seed, salt :| EncryptSignMsg(suite, msg, PublicKey(receiver), PrivateKey(sender), seed, salt)
      == Ok((t.sealedKey, t.signature));
    SignedMessageRoundTrip(suite, msg, receiver, sender, seed, salt);
    ReadFramesExact(Framed([t.sealedKey, t.signature]) + rest, [t.sealedKey, t.signature], rest);
    SplitJoined(t.key, t.count);
  }

  lemma SplitJoined(key: seq<byte>, count: nat)
    requires |key| == 32 && count <= 0xFFFF
    ensures SplitKey(KeyAndCount(key, count)) == Ok((key, count))
  {
    var msg := KeyAndCount(key, count);
    Uint16RoundTrip(count, []);
    assert msg[..32] == key && msg[32..] == Uint16ToByte(count) + [];
  }

  lemma GenuineHeader(suite: Suite, t: Transfer, sender: nat, receiver: nat, rest: seq<byte>)
    requires Genuine(suite, t, sender, receiver)
    ensures ReceiveHeader(suite, PublicKey(sender), PrivateKey(receiver), HeaderFrames(suite, t) + rest) ==
            Got(Ok(Header(t.key, t.count, t.fileName)), rest)
  {
    hide ReceiveKey;
    hide ReceiveSealed;
    hide Framed;
    var named := Framed([t.ivs(0), SealedName(suite, t)]) + rest;
    assert HeaderFrames(suite, t) + rest == Framed([t.sealedKey, t.signature]) + named;
    GenuineKey(suite, t, sender, receiver, named);
    GenuineSealed(suite, t.key, t.ivs(0), t.fileName, rest);
  }

  // End to end

  // One turn of the receiving loop on an accepted chunk
  lemma ReceiveNext(suite: Suite, key: seq<byte>, count: nat, faults: nat -> Option<nat>,
                    chunks: nat, offset: nat, temp: seq<byte>, s: seq<byte>, data: seq<byte>, rest: seq<byte>)
    requires chunks < count && faults(chunks) == None
    requires ReceiveChunk(suite, key, chunks, s) == Got(Ok(data), rest)
    ensures ReceiveChunks(suite, key, count, faults, chunks, offset, temp, s) ==
            ReceiveChunks(suite, key, count, faults, chunks + 1, offset + |data|, temp + data, rest)
  {
    hide ReceiveChunk;
  }

  // The receiving loop on the sender's chunks, entered with i of them accepted
  function ReceiveFrom(suite: Suite, t: Transfer, faults: nat -> Option<nat>, i: nat, s: seq<byte>): Progress
    requires i <= t.count
  {
    var done := Offset(|t.content|, i);
    ReceiveChunks(suite, t.key, t.count, faults, i, done, t.content[..done], s)
  }

  lemma ReceiveGenuine(suite: Suite, t: Transfer, faults: nat -> Option<nat>, i: nat, rest: seq<byte>)
    requires WellKeyed(suite, t)
    requires i < t.count <= 0xFFFF && faults(i) == None
    ensures ReceiveFrom(suite, t, faults, i, ChunkFrames(suite, t, i) + rest) ==
            ReceiveFrom(suite, t, faults, i + 1, rest)
  {
    hide ReceiveChunks;
    hide ReceiveChunk;
    hide ChunkFrames;
    hide Chunk;
    hide WellKeyed;
    hide FullChunks;
    var done := Offset(|t.content|, i);
    GenuineChunk(suite, t, i, i, rest);
    ChunkNext(t.content, i);
    ReceiveNext(suite, t.key, t.count, faults, i, done, t.content[..done],
                ChunkFrames(suite, t, i) + rest, Chunk(t.content, i), rest);
  }

  lemma ChunksFromNext(suite: Suite, t: Transfer, i: nat, suffix: seq<byte>)
    requires i < ChunkCount(|t.content|)
    ensures ChunksFrom(suite, t, i) + suffix == ChunkFrames(suite, t, i) + (ChunksFrom(suite, t, i + 1) + suffix)
  {
    hide ChunkFrames;
  }

  lemma ReceiveDone(suite: Suite, t: Transfer, faults: nat -> Option<nat>, s: seq<byte>)
    ensures ReceiveFrom(suite, t, faults, t.count, s) ==
            Progress(None, t.count, Offset(|t.content|, t.count), t.content[..Offset(|t.content|, t.count)], s)
  {
  }

  lemma {:induction false} ReceiveSent(suite: Suite, t: Transfer, faults: nat -> Option<nat>, i: nat, suffix: seq<byte>)
    requires WellKeyed(suite, t) && NoFaults(faults)
    requires i <= t.count <= ChunkCount(|t.content|) && t.count <= 0xFFFF
    ensures ReceiveFrom(suite, t, faults, i, ChunksFrom(suite, t, i) + suffix) ==
            Progress(None, t.count, Offset(|t.content|, t.count), t.content[..Offset(|t.content|, t.count)],
                     ChunksFrom(suite, t, t.count) + suffix)
    decreases t.count - i
  {
    hide WellKeyed;
    hide ReceiveFrom;
    hide ChunksFrom;
    if i == t.count {
      ReceiveDone(suite, t, faults, ChunksFrom(suite, t, i) + suffix);
    } else {
      ChunksFromNext(suite, t, i, suffix);
      ReceiveGenuine(suite, t, faults, i, ChunksFrom(suite, t, i + 1) + suffix);
      ReceiveSent(suite, t, faults, i + 1, suffix);
    }
  }

  lemma Delivered(suite: Suite, t: Transfer, sender: nat, receiver: nat, faults: nat -> Option<nat>, suffix: seq<byte>)
    requires Genuine(suite, t, sender, receiver) && NoFaults(faults)
    ensures t.count <= ChunkCount(|t.content|)
    ensures ReceiveFile(suite, PublicKey(sender), PrivateKey(receiver), faults, Wire(suite, t) + suffix) ==
            Delivery(Header(t.key, t.count, t.fileName),
                     Progress(None, t.count, Offset(|t.content|, t.count), t.content[..Offset(|t.content|, t.count)],
                              ChunksFrom(suite, t, t.count) + suffix))
  {
    hide ReceiveHeader;
    hide HeaderFrames;
    hide ChunksFrom;
    var other: nat :| other <= 0xFFFF && t.count == ToUint16(ChunkCount(|t.content|), other);
    assert Wire(suite, t) + suffix == HeaderFrames(suite, t) + (ChunksFrom(suite, t, 0) + suffix);
    GenuineHeader(suite, t, sender, receiver, ChunksFrom(suite, t, 0) + suffix);
    ReceiveSent(suite, t, faults, 0, suffix);
    assert t.content[..0] == [];
  }

  // The bytes of a transfer, whatever follows them, deliver the name and the
  // first `count` chunks. That is the whole file, with the reader right behind
  // it, if and only if the file is within the 65535 chunks a uint16 can count;
  // a larger one is cut short without an error.
  lemma RoundTrip(suite: Suite, t: Transfer, sender: nat, receiver: nat, faults: nat -> Option<nat>, suffix: seq<byte>)
    requires Genuine(suite, t, sender, receiver) && NoFaults(faults)
    ensures var d := ReceiveFile(suite, PublicKey(sender), PrivateKey(receiver), faults, Wire(suite, t) + suffix);
      && d.header == Header(t.key, t.count, t.fileName)
      && d.progress.err == None
      && d.progress.temp <= t.content
      && (|t.content| <= FullChunks(0xFFFF) ==> d.progress.temp == t.content && d.progress.rest == suffix)
      && (|t.content| > FullChunks(0xFFFF) ==> d.progress.temp != t.content)
  {
    hide ReceiveFile;
    hide Wire;
    Delivered(suite, t, sender, receiver, faults, suffix);
    var other: nat :| other <= 0xFFFF && t.count == ToUint16(ChunkCount(|t.content|), other);
    ChunkArithmetic(|t.content|, t.count);
    if |t.content| <= FullChunks(0xFFFF) {
      assert ChunksFrom(suite, t, t.count) == [];
    }
  }

  // A failing write ends the transfer: the chunk is already counted, and of its
  // data the temp file holds what the write took.
  lemma {:induction false} FaultStops(suite: Suite, t: Transfer, faults: nat -> Option<nat>, i: nat, j: nat, k: nat,
                                      suffix: seq<byte>)
    requires WellKeyed(suite, t) && i <= j < t.count <= ChunkCount(|t.content|) && t.count <= 0xFFFF
    requires (forall l: nat :: i <= l < j ==> faults(l) == None) && faults(j) == Some(k)
    ensures var p := ReceiveFrom(suite, t, faults, i, ChunksFrom(suite, t, i) + suffix);
      && p.err == Some(WriteFailed) && p.chunks == j + 1
      && p.temp == t.content[..Min(Offset(|t.content|, j) + k, Offset(|t.content|, j + 1))]
      && p.rest == ChunksFrom(suite, t, j + 1) + suffix
    decreases j - i
  {
    hide WellKeyed;
    hide ChunksFrom;
    ChunksFromNext(suite, t, i, suffix);
    if i < j {
      hide ReceiveFrom;
      ReceiveGenuine(suite, t, faults, i, ChunksFrom(suite, t, i + 1) + suffix);
      FaultStops(suite, t, faults, i + 1, j, k, suffix);
    } else {
      hide ReceiveChunk;
      hide ChunkFrames;
      GenuineChunk(suite, t, j, j, ChunksFrom(suite, t, j + 1) + suffix);
      BeginningOfChunk(t.content, j, k);
    }
  }

  lemma BeginningOfChunk(content: seq<byte>, j: nat, k: nat)
    ensures content[..Offset(|content|, j)] + Chunk(content, j)[..Min(k, |Chunk(content, j)|)] ==
            content[..Min(Offset(|content|, j) + k, Offset(|content|, j + 1))]
  {
  }

  lemma WriteFaultStops(suite: Suite, t: Transfer, sender: nat, receiver: nat, faults: nat -> Option<nat>,
                        j: nat, k: nat, suffix: seq<byte>)
    requires Genuine(suite, t, sender, receiver) && j < t.count
    requires (forall l: nat :: l < j ==> faults(l) == None) && faults(j) == Some(k)
    ensures var p := ReceiveFile(suite, PublicKey(sender), PrivateKey(receiver), faults,
                                 Wire(suite, t) + suffix).progress;
      && p.err == Some(WriteFailed) && p.chunks == j + 1
      && p.temp == t.content[..Min(Offset(|t.content|, j) + k, Offset(|t.content|, j + 1))]
  {
    hide ReceiveHeader;
    hide HeaderFrames;
    hide ChunksFrom;
    var other: nat :| other <= 0xFFFF && t.count == ToUint16(ChunkCount(|t.content|), other);
    assert Wire(suite, t) + suffix == HeaderFrames(suite, t) + (ChunksFrom(suite, t, 0) + suffix);
    GenuineHeader(suite, t, sender, receiver, ChunksFrom(suite, t, 0) + suffix);
    FaultStops(suite, t, faults, 0, j, k, suffix);
    assert t.content[..0] == [];
  }

  // Several transfers on one connection

  function WireAll(suite: Suite, ts: seq<Transfer>): seq<byte> {
    if ts == [] then [] else Wire(suite, ts[0]) + WireAll(suite, ts[1..])
  }

  // n runs of Decrypt in a row, each with a fresh state: names and contents
  function ReceiveFiles(suite: Suite, sender: PublicKey, receiver: PrivateKey, faults: nat -> Option<nat>,
                        s: seq<byte>, n: nat)
    : Got<seq<(seq<byte>, seq<byte>)>>
    decreases n
  {
    if n == 0 then Got(Ok([]), s) else
    var d := ReceiveFile(suite, sender, receiver, faults, s);
    if d.progress.err.Some? then Got(Err(d.progress.err.value), d.progress.rest) else
    var others := ReceiveFiles(suite, sender, receiver, faults, d.progress.rest, n - 1);
    if others.result.Err? then others else
    Got(Ok([(d.header.fileName, d.progress.temp)] + others.result.value), others.rest)
  }

  function NamesAndContents(ts: seq<Transfer>): seq<(seq<byte>, seq<byte>)> {
    if ts == [] then [] else [(ts[0].fileName, ts[0].content)] + NamesAndContents(ts[1..])
  }

  // Transfers sent back to back are all delivered, in order.
  lemma {:induction false} BackToBack(suite: Suite, ts: seq<Transfer>, sender: nat, receiver: nat,
                                      faults: nat -> Option<nat>, suffix: seq<byte>)
    requires NoFaults(faults)
    requires forall t :: t in ts ==> Genuine(suite, t, sender, receiver) && |t.content| <= FullChunks(0xFFFF)
    ensures ReceiveFiles(suite, PublicKey(sender), PrivateKey(receiver), faults, WireAll(suite, ts) + suffix, |ts|)
            == Got(Ok(NamesAndContents(ts)), suffix)
  {
    hide ReceiveFile;
    hide Wire;
    hide Genuine;
    if ts == [] {
      assert WireAll(suite, ts) + suffix == suffix;
    } else {
      var later := WireAll(suite, ts[1..]) + suffix;
      assert WireAll(suite, ts) + suffix == Wire(suite, ts[0]) + later;
      RoundTrip(suite, ts[0], sender, receiver, faults, later);
      BackToBack(suite, ts[1..], sender, receiver, faults, suffix);
    }
  }

  // Cut streams

  ghost predicate EndOfStream(e: Failure) {
    e == EOF || e == UnexpectedEOF
  }

  // `cut` is what reading the first k bytes gives when reading all |s| of them
  // gives `whole`: an end-of-stream error inside the consumed part, the same
  // result with a shorter rest behind it.
  ghost predicate CutAgrees<T>(whole: Got<T>, cut: Got<T>, len: nat, k: nat)
    requires |whole.rest| <= len && k <= len
  {
    var consumed := len - |whole.rest|;
    && (k < consumed ==> cut.result.Err? && EndOfStream(cut.result.error))
    && (k >= consumed ==> cut == Got(whole.result, whole.rest[..k - consumed]))
  }

  lemma ReadBytesCutAgrees(s: seq<byte>, k: nat)
    requires ReadBytesOf(s).result.Ok? && k <= |s|
    ensures |ReadBytesOf(s).rest| <= |s| && CutAgrees(ReadBytesOf(s), ReadBytesOf(s[..k]), |s|, k)
  {
    hide ReadBytesOf;
    ReadBytesCut(s, ReadBytesOf(s).result.value, ReadBytesOf(s).rest, k);
  }

  lemma TwoFramesCut(s: seq<byte>, k: nat)
    requires ReadFramesOf(s, 2).result.Ok? && k <= |s|
    ensures |ReadFramesOf(s, 2).rest| <= |s| && CutAgrees(ReadFramesOf(s, 2), ReadFramesOf(s[..k], 2), |s|, k)
  {
    hide ReadBytesOf;
    hide ReadFramesOf;
    ReadsTwo(s);
    ReadsTwo(s[..k]);
    var first := ReadBytesOf(s);
    ReadBytesCutAgrees(s, k);
    var consumed := |s| - |first.rest|;
    ReadBytesCutAgrees(first.rest, if k < consumed then 0 else k - consumed);
  }

  lemma SealedCut(suite: Suite, key: seq<byte>, s: seq<byte>, k: nat)
    requires ReceiveSealed(suite, key, s).result.Ok? && k <= |s|
    ensures var whole := ReceiveSealed(suite, key, s);
      |whole.rest| <= |s| && CutAgrees(whole, ReceiveSealed(suite, key, s[..k]), |s|, k)
  {
    hide ReadFramesOf;
    TwoFramesCut(s, k);
  }

  lemma KeyCut(suite: Suite, sender: PublicKey, receiver: PrivateKey, s: seq<byte>, k: nat)
    requires ReceiveKey(suite, sender, receiver, s).result.Ok? && k <= |s|
    ensures var whole := ReceiveKey(suite, sender, receiver, s);
      |whole.rest| <= |s| && CutAgrees(whole, ReceiveKey(suite, sender, receiver, s[..k]), |s|, k)
  {
    hide ReadFramesOf;
    TwoFramesCut(s, k);
  }

  lemma HeaderCut(suite: Suite, sender: PublicKey, receiver: PrivateKey, s: seq<byte>, k: nat)
    requires ReceiveHeader(suite, sender, receiver, s).result.Ok? && k <= |s|
    ensures var whole := ReceiveHeader(suite, sender, receiver, s);
      |whole.rest| <= |s| && CutAgrees(whole, ReceiveHeader(suite, sender, receiver, s[..k]), |s|, k)
  {
    hide ReceiveKey;
    hide ReceiveSealed;
    var key := ReceiveKey(suite, sender, receiver, s);
    KeyCut(suite, sender, receiver, s, k);
    var consumed := |s| - |key.rest|;
    SealedCut(suite, key.result.value.0, key.rest, if k < consumed then 0 else k - consumed);
  }

  lemma ChunkCut(suite: Suite, key: seq<byte>, expected: nat, s: seq<byte>, k: nat)
    requires ReceiveChunk(suite, key, expected, s).result.Ok? && k <= |s|
    ensures var whole := ReceiveChunk(suite, key, expected, s);
      |whole.rest| <= |s| && CutAgrees(whole, ReceiveChunk(suite, key, expected, s[..k]), |s|, k)
  {
    hide ReceiveSealed;
    SealedCut(suite, key, s, k);
  }

  lemma {:induction false} ChunksCut(suite: Suite, key: seq<byte>, count: nat, faults: nat -> Option<nat>,
                                     chunks: nat, offset: nat, temp: seq<byte>, s: seq<byte>, k: nat)
    requires chunks <= count && k <= |s|
    requires ReceiveChunks(suite, key, count, faults, chunks, offset, temp, s).err == None
    ensures var whole := ReceiveChunks(suite, key, count, faults, chunks, offset, temp, s);
      var cut := ReceiveChunks(suite, key, count, faults, chunks, offset, temp, s[..k]);
      var consumed := |s| - |whole.rest|;
      && consumed >= 0
      && (k < consumed ==> cut.err.Some? && EndOfStream(cut.err.value))
      && (k >= consumed ==> cut == whole.(rest := whole.rest[..k - consumed]))
    decreases count - chunks
  {
    hide ReceiveChunk;
    if chunks < count {
      var got := ReceiveChunk(suite, key, chunks, s);
      ChunkCut(suite, key, chunks, s, k);
      var consumed := |s| - |got.rest|;
      ChunksCut(suite, key, count, faults, chunks + 1, offset + |got.result.value|, temp + got.result.value, got.rest,
                if k < consumed then 0 else k - consumed);
    }
  }

  // Wherever a stream that delivers a file is cut before its last byte, the
  // receiver sees the end of the stream; cut behind it, nothing changes.
  lemma DeliveryCut(suite: Suite, sender: PublicKey, receiver: PrivateKey, faults: nat -> Option<nat>, s: seq<byte>,
                    k: nat)
    requires ReceiveFile(suite, sender, receiver, faults, s).progress.err == None && k <= |s|
    ensures var whole := ReceiveFile(suite, sender, receiver, faults, s);
      var cut := ReceiveFile(suite, sender, receiver, faults, s[..k]).progress;
      var consumed := |s| - |whole.progress.rest|;
      && consumed >= 0
      && (k < consumed ==> cut.err.Some? && EndOfStream(cut.err.value))
      && (k >= consumed ==> cut == whole.progress.(rest := whole.progress.rest[..k - consumed]))
  {
    hide ReceiveHeader;
    hide ReceiveChunks;
    var header := ReceiveHeader(suite, sender, receiver, s);
    var h := header.result.value;
    HeaderCut(suite, sender, receiver, s, k);
    var consumed := |s| - |header.rest|;
    ChunksCut(suite, h.key, h.count, faults, 0, 0, [], header.rest, if k < consumed then 0 else k - consumed);
  }

  // A delivery that meets no write fault does not depend on which faults there
  // could have been.
  lemma {:induction false} FaultFree(suite: Suite, key: seq<byte>, count: nat, faults: nat -> Option<nat>,
                                     none: nat -> Option<nat>, chunks: nat, offset: nat, temp: seq<byte>, s: seq<byte>)
    requires chunks <= count && NoFaults(none)
    requires ReceiveChunks(suite, key, count, faults, chunks, offset, temp, s).err == None
    ensures ReceiveChunks(suite, key, count, none, chunks, offset, temp, s) ==
            ReceiveChunks(suite, key, count, faults, chunks, offset, temp, s)
    decreases count - chunks
  {
    hide ReceiveChunk;
    if chunks < count {
      var got := ReceiveChunk(suite, key, chunks, s);
      FaultFree(suite, key, count, faults, none, chunks + 1, offset + |got.result.value|, temp + got.result.value,
                got.rest);
    }
  }

  lemma FileFaultFree(suite: Suite, sender: PublicKey, receiver: PrivateKey, faults: nat -> Option<nat>,
                      none: nat -> Option<nat>, s: seq<byte>)
    requires NoFaults(none) && ReceiveFile(suite, sender, receiver, faults, s).progress.err == None
    ensures ReceiveFile(suite, sender, receiver, none, s) == ReceiveFile(suite, sender, receiver, faults, s)
  {
    hide ReceiveHeader;
    hide ReceiveChunks;
    var header := ReceiveHeader(suite, sender, receiver, s);
    FaultFree(suite, header.result.value.key, header.result.value.count, faults, none, 0, 0, [], header.rest);
  }

  // The bytes of a transfer that the receiver takes: all of them exactly when
  // the file is within the size limit
  function Taken(suite: Suite, t: Transfer): int {
    |Wire(suite, t)| - |ChunksFrom(suite, t, t.count)|
  }

  lemma TakenExact(suite: Suite, t: Transfer, sender: nat, receiver: nat)
    requires Genuine(suite, t, sender, receiver)
    ensures 0 < Taken(suite, t) <= |Wire(suite, t)|
    ensures Taken(suite, t) == |Wire(suite, t)| <==> |t.content| <= FullChunks(0xFFFF)
  {
    hide ChunkFrames;
    var other: nat :| other <= 0xFFFF && t.count == ToUint16(ChunkCount(|t.content|), other);
    ChunkArithmetic(|t.content|, t.count);
    if |t.content| > FullChunks(0xFFFF) {
      ChunksFromNext(suite, t, t.count, []);
      ChunkFramesNonEmpty(suite, t, t.count);
    }
    ChunksShrink(suite, t, 0, t.count);
  }

  lemma ChunkFramesNonEmpty(suite: Suite, t: Transfer, i: nat)
    ensures |ChunkFrames(suite, t, i)| >= 10
  {
    FramedTwo(t.ivs(i + 1), SealedChunk(suite, t, i));
    hide Framed;
  }

  lemma {:induction false} ChunksShrink(suite: Suite, t: Transfer, i: nat, j: nat)
    requires i <= j
    ensures |ChunksFrom(suite, t, j)| <= |ChunksFrom(suite, t, i)|
    decreases j - i
  {
    hide ChunkFrames;
    if i < j {
      ChunksShrink(suite, t, i + 1, j);
    }
  }

  // Truncation is always detected: on a prefix of the sender's bytes the
  // receiver fails exactly when a byte it needs is missing, whatever the disk
  // does. Within the size limit that is every strict prefix; above the limit
  // some strict prefix passes for the whole.
  lemma TruncationDetected(suite: Suite, t: Transfer, sender: nat, receiver: nat, faults: nat -> Option<nat>, k: nat)
    requires Genuine(suite, t, sender, receiver) && k <= |Wire(suite, t)|
    ensures var prefix := Wire(suite, t)[..k];
      var err := ReceiveFile(suite, PublicKey(sender), PrivateKey(receiver), faults, prefix).progress.err;
      && (k < Taken(suite, t) ==> err.Some?)
      && (NoFaults(faults) ==> if k < Taken(suite, t) then err.Some? && EndOfStream(err.value) else err == None)
  {
    hide ReceiveFile;
    hide Wire;
    hide Genuine;
    hide Taken;
    var none: nat -> Option<nat> := i => None;
    var prefix := Wire(suite, t)[..k];
    TruncationWithout(suite, t, sender, receiver, none, k);
    if NoFaults(faults) {
      TruncationWithout(suite, t, sender, receiver, faults, k);
    }
    if ReceiveFile(suite, PublicKey(sender), PrivateKey(receiver), faults, prefix).progress.err == None {
      FileFaultFree(suite, PublicKey(sender), PrivateKey(receiver), faults, none, prefix);
    }
  }

  lemma TruncationWithout(suite: Suite, t: Transfer, sender: nat, receiver: nat, faults: nat -> Option<nat>, k: nat)
    requires Genuine(suite, t, sender, receiver) && NoFaults(faults) && k <= |Wire(suite, t)|
    ensures var prefix := Wire(suite, t)[..k];
      var err := ReceiveFile(suite, PublicKey(sender), PrivateKey(receiver), faults, prefix).progress.err;
      if k < Taken(suite, t) then err.Some? && EndOfStream(err.value) else err == None
  {
    hide ReceiveFile;
    hide Wire;
    hide Genuine;
    hide ChunksFrom;
    Delivered(suite, t, sender, receiver, faults, []);
    assert Wire(suite, t) + [] == Wire(suite, t);
    assert ChunksFrom(suite, t, t.count) + [] == ChunksFrom(suite, t, t.count);
    DeliveryCut(suite, PublicKey(sender), PrivateKey(receiver), faults, Wire(suite, t), k);
  }

  // Reordered streams

  // The sender's chunk frames in some order, with repetitions or omissions
  function Shuffled(suite: Suite, t: Transfer, order: seq<nat>): seq<byte> {
    if order == [] then [] else ChunkFrames(suite, t, order[0]) + Shuffled(suite, t, order[1..])
  }

  // How many of the shuffled chunks are accepted when chunk i is due: their
  // numbers, of 16 bits, are the ones due
  function InOrder(order: seq<nat>, i: nat, count: nat): (n: nat)
    ensures n <= |order| && (i <= count ==> n <= count - i)
    ensures forall j :: 0 <= j < n ==> Wrap16(order[j]) == i + j
    ensures i <= count && n < count - i && n < |order| ==> Wrap16(order[n]) != i + n
  {
    if order == [] || i >= count || Wrap16(order[0]) != i then 0 else 1 + InOrder(order[1..], i + 1, count)
  }

  // The data of some chunks, one after the other
  function Pieces(content: seq<byte>, order: seq<nat>): seq<byte> {
    if order == [] then [] else Chunk(content, order[0]) + Pieces(content, order[1..])
  }

  // For every file, count and order: the loop accepts the chunks as long as
  // their numbers are due, and the temp file grows by exactly their data. The
  // run ends with all announced chunks accepted, or with an error: at the end
  // of the stream if the frames run out, otherwise at the first one out of
  // place.
  lemma {:induction false} ReceiveShuffled(suite: Suite, t: Transfer, faults: nat -> Option<nat>, i: nat,
                                           offset: nat, temp: seq<byte>, order: seq<nat>)
    requires WellKeyed(suite, t) && NoFaults(faults) && i <= t.count <= 0xFFFF
    ensures var p := ReceiveChunks(suite, t.key, t.count, faults, i, offset, temp, Shuffled(suite, t, order));
      var n := InOrder(order, i, t.count);
      && p.chunks == i + n
      && p.temp == temp + Pieces(t.content, order[..n])
      && p.offset == offset + |Pieces(t.content, order[..n])|
      && p.err == if p.chunks == t.count then None
                  else if n == |order| then Some(EOF)
                  else Some(ChunkIncorrectOrder)
    decreases |order|
  {
    hide WellKeyed;
    hide ReceiveChunks;
    hide Chunk;
    hide InOrder;
    hide Shuffled;
    InOrderNext(order, i, t.count);
    if i == t.count || order == [] || Wrap16(order[0]) != i {
      ShuffleEnds(suite, t, faults, i, offset, temp, order);
      assert temp + Pieces(t.content, order[..0]) == temp;
    } else {
      hide Pieces;
      var data := Chunk(t.content, order[0]);
      var n := InOrder(order[1..], i + 1, t.count);
      var others := Pieces(t.content, order[1..][..n]);
      ShuffleNext(suite, t, faults, i, offset, temp, order);
      ReceiveShuffled(suite, t, faults, i + 1, offset + |data|, temp + data, order[1..]);
      PiecesNext(t.content, order, n);
      assert temp + data + others == temp + (data + others);
    }
  }

  lemma InOrderNext(order: seq<nat>, i: nat, count: nat)
    requires i <= count
    ensures InOrder(order, i, count) <= |order|
    ensures if i == count || order == [] || Wrap16(order[0]) != i then InOrder(order, i, count) == 0
            else InOrder(order, i, count) == 1 + InOrder(order[1..], i + 1, count)
  {
  }

  lemma ShuffleEnds(suite: Suite, t: Transfer, faults: nat -> Option<nat>, i: nat,
                    offset: nat, temp: seq<byte>, order: seq<nat>)
    requires WellKeyed(suite, t) && i <= t.count && (i == t.count || order == [] || Wrap16(order[0]) != i)
    ensures var p := ReceiveChunks(suite, t.key, t.count, faults, i, offset, temp, Shuffled(suite, t, order));
      && p.chunks == i && p.temp == temp && p.offset == offset
      && p.err == if i == t.count then None else if order == [] then Some(EOF) else Some(ChunkIncorrectOrder)
  {
    hide WellKeyed;
    hide ChunkFrames;
    hide ReceiveChunk;
    if order == [] {
      ReceiveNothing(suite, t.key, i);
    } else {
      GenuineChunk(suite, t, order[0], i, Shuffled(suite, t, order[1..]));
    }
  }

  lemma ShuffleNext(suite: Suite, t: Transfer, faults: nat -> Option<nat>, i: nat,
                    offset: nat, temp: seq<byte>, order: seq<nat>)
    requires WellKeyed(suite, t) && i < t.count && order != [] && Wrap16(order[0]) == i && faults(i) == None
    ensures var data := Chunk(t.content, order[0]);
      ReceiveChunks(suite, t.key, t.count, faults, i, offset, temp, Shuffled(suite, t, order)) ==
      ReceiveChunks(suite, t.key, t.count, faults, i + 1, offset + |data|, temp + data, Shuffled(suite, t, order[1..]))
  {
    hide WellKeyed;
    hide ChunkFrames;
    hide ReceiveChunk;
    hide ReceiveChunks;
    hide Chunk;
    var rest := Shuffled(suite, t, order[1..]);
    GenuineChunk(suite, t, order[0], i, rest);
    ReceiveNext(suite, t.key, t.count, faults, i, offset, temp, Shuffled(suite, t, order),
                Chunk(t.content, order[0]), rest);
  }

  lemma PiecesNext(content: seq<byte>, order: seq<nat>, n: nat)
    requires n < |order|
    ensures Pieces(content, order[..n + 1]) == Chunk(content, order[0]) + Pieces(content, order[1..][..n])
  {
    assert order[..n + 1][1..] == order[1..][..n];
  }

  lemma ReceiveNothing(suite: Suite, key: seq<byte>, expected: nat)
    ensures ReceiveChunk(suite, key, expected, []) == Got(Err(EOF), [])
  {
  }

  // Chunks i, i + 1, ... behind the beginning of the file make up its beginning.
  lemma {:induction false} PiecesInOrder(content: seq<byte>, order: seq<nat>, i: nat)
    requires forall j :: 0 <= j < |order| ==> order[j] == i + j
    ensures content[..Offset(|content|, i)] + Pieces(content, order) == content[..Offset(|content|, i + |order|)]
    decreases |order|
  {
    hide Chunk;
    var before := content[..Offset(|content|, i)];
    if order == [] {
      assert before + [] == before;
    } else {
      ChunkNext(content, i);
      PiecesInOrder(content, order[1..], i + 1);
      assert before + (Chunk(content, i) + Pieces(content, order[1..])) ==
             before + Chunk(content, i) + Pieces(content, order[1..]);
    }
  }

  // A header followed by shuffled chunk frames, for every file, count and order
  lemma ShuffledDelivery(suite: Suite, t: Transfer, sender: nat, receiver: nat, faults: nat -> Option<nat>,
                         order: seq<nat>)
    requires Genuine(suite, t, sender, receiver) && NoFaults(faults)
    ensures var p := ReceiveFile(suite, PublicKey(sender), PrivateKey(receiver), faults,
                                 HeaderFrames(suite, t) + Shuffled(suite, t, order)).progress;
      var n := InOrder(order, 0, t.count);
      && p.chunks == n && p.temp == Pieces(t.content, order[..n])
      && p.err == if n == t.count then None else Some(if n == |order| then EOF else ChunkIncorrectOrder)
  {
    hide ReceiveHeader;
    hide ReceiveChunks;
    hide HeaderFrames;
    hide Shuffled;
    GenuineHeader(suite, t, sender, receiver, Shuffled(suite, t, order));
    ReceiveShuffled(suite, t, faults, 0, 0, [], order);
    var n := InOrder(order, 0, t.count);
    assert [] + Pieces(t.content, order[..n]) == Pieces(t.content, order[..n]);
  }

  // Up to 65536 chunks the numbers of a file's chunks are distinct: whatever the
  // order, and whatever count was sent, the temp file is the file's beginning.
  lemma ShuffledPrefix(suite: Suite, t: Transfer, sender: nat, receiver: nat, faults: nat -> Option<nat>,
                       order: seq<nat>)
    requires Genuine(suite, t, sender, receiver) && NoFaults(faults)
    requires ChunkCount(|t.content|) <= 0x1_0000
    requires forall j :: 0 <= j < |order| ==> order[j] < ChunkCount(|t.content|)
    ensures var p := ReceiveFile(suite, PublicKey(sender), PrivateKey(receiver), faults,
                                 HeaderFrames(suite, t) + Shuffled(suite, t, order)).progress;
      p.chunks <= |order| && p.temp == t.content[..Offset(|t.content|, p.chunks)]
  {
    hide Genuine;
    hide ReceiveFile;
    hide Pieces;
    ShuffledDelivery(suite, t, sender, receiver, faults, order);
    hide InOrder;
    hide Chunk;
    var n := InOrder(order, 0, t.count);
    InOrderExact(order, t.count);
    PiecesFromStart(t.content, order[..n]);
  }

  lemma InOrderExact(order: seq<nat>, count: nat)
    requires forall j :: 0 <= j < |order| ==> order[j] < 0x1_0000
    ensures InOrder(order, 0, count) <= |order|
    ensures forall j :: 0 <= j < InOrder(order, 0, count) ==> order[j] == j
  {
    forall j | 0 <= j < InOrder(order, 0, count) ensures order[j] == j {
      assert Wrap16(order[j]) == order[j];
    }
  }

  lemma PiecesFromStart(content: seq<byte>, order: seq<nat>)
    requires forall j :: 0 <= j < |order| ==> order[j] == j
    ensures Pieces(content, order) == content[..Offset(|content|, |order|)]
  {
    PiecesInOrder(content, order, 0);
    hide Pieces;
    assert content[..Offset(|content|, 0)] + Pieces(content, order) == Pieces(content, order);
  }

  // With more than 65536 chunks that fails: chunk 65536 bears number 0, and is
  // taken for the beginning, and for the whole file when one chunk is announced.
  lemma WrappedChunkTaken(suite: Suite, t: Transfer, sender: nat, receiver: nat, faults: nat -> Option<nat>)
    requires Genuine(suite, t, sender, receiver) && NoFaults(faults) && t.count > 0
    requires ChunkCount(|t.content|) > 0x1_0000
    ensures var p := ReceiveFile(suite, PublicKey(sender), PrivateKey(receiver), faults,
                                 HeaderFrames(suite, t) + ChunkFrames(suite, t, 0x1_0000)).progress;
      p.chunks == 1 && p.temp == Chunk(t.content, 0x1_0000) != [] && (p.err == None <==> t.count == 1)
  {
    hide Genuine;
    hide ReceiveFile;
    hide ChunkFrames;
    hide Chunk;
    var order := [0x1_0000];
    ShuffledDelivery(suite, t, sender, receiver, faults, order);
    assert Shuffled(suite, t, order) == ChunkFrames(suite, t, 0x1_0000) + [] == ChunkFrames(suite, t, 0x1_0000);
    assert InOrder(order[1..], 1, t.count) == 0;
    assert InOrder(order, 0, t.count) == 1 && order[..1] == order;
    assert Pieces(t.content, order) == Chunk(t.content, 0x1_0000) + [] == Chunk(t.content, 0x1_0000);
    ChunkArithmetic(|t.content|, 0x1_0000);
    ChunkNext(t.content, 0x1_0000);
  }

  // Within the size limit the file is delivered if and only if the frames begin
  // with chunks 0, 1, 2, ... up to the last; otherwise the receiver fails, and
  // the temp file holds the file's beginning. Write faults add failures only.
  lemma ReorderingDetected(suite: Suite, t: Transfer, sender: nat, receiver: nat, faults: nat -> Option<nat>,
                           order: seq<nat>)
    requires Genuine(suite, t, sender, receiver)
    requires t.count == ChunkCount(|t.content|) && forall j :: 0 <= j < |order| ==> order[j] < t.count
    ensures var p := ReceiveFile(suite, PublicKey(sender), PrivateKey(receiver), faults,
                                 HeaderFrames(suite, t) + Shuffled(suite, t, order)).progress;
      var ordered := t.count <= |order| && forall j :: 0 <= j < t.count ==> order[j] == j;
      && (p.err == None ==> ordered && p.temp == t.content)
      && (NoFaults(faults) ==>
           && p.temp == t.content[..Offset(|t.content|, p.chunks)]
           && (p.err == None <==> ordered)
           && (p.err.Some? ==>
                p.err.value == if InOrder(order, 0, t.count) == |order| then EOF else ChunkIncorrectOrder))
  {
    hide Genuine;
    hide ReceiveFile;
    hide Shuffled;
    hide HeaderFrames;
    hide Pieces;
    var none: nat -> Option<nat> := i => None;
    var s := HeaderFrames(suite, t) + Shuffled(suite, t, order);
    CountFits(suite, t, sender, receiver);
    OrderedCount(order, t.count);
    ChunkArithmetic(|t.content|, 0);
    ShuffledDelivery(suite, t, sender, receiver, none, order);
    ShuffledPrefix(suite, t, sender, receiver, none, order);
    if NoFaults(faults) {
      ShuffledDelivery(suite, t, sender, receiver, faults, order);
      ShuffledPrefix(suite, t, sender, receiver, faults, order);
    }
    if ReceiveFile(suite, PublicKey(sender), PrivateKey(receiver), faults, s).progress.err == None {
      FileFaultFree(suite, PublicKey(sender), PrivateKey(receiver), faults, none, s);
    }
  }

  lemma CountFits(suite: Suite, t: Transfer, sender: nat, receiver: nat)
    requires Genuine(suite, t, sender, receiver)
    ensures t.count <= 0xFFFF
  {
  }

  lemma OrderedCount(order: seq<nat>, count: nat)
    requires count <= 0xFFFF && forall j :: 0 <= j < |order| ==> order[j] < count
    ensures InOrder(order, 0, count) == count <==> count <= |order| && forall j :: 0 <= j < count ==> order[j] == j
  {
    var n := InOrder(order, 0, count);
    if n < count && n < |order| {
      assert Wrap16(order[n]) == order[n] != n;
    }
    forall j | 0 <= j < n ensures order[j] == j {
      assert Wrap16(order[j]) == order[j];
    }
  }

  // The receiving loop ends without an error only when the counter has reached
  // the announced number: it starts at zero and never passes that number.

  lemma {:induction false} CountReached(suite: Suite, key: seq<byte>, count: nat, faults: nat -> Option<nat>,
                                        chunks: nat, offset: nat, temp: seq<byte>, s: seq<byte>)
    requires chunks <= count
    ensures var p := ReceiveChunks(suite, key, count, faults, chunks, offset, temp, s);
      p.chunks <= count && (p.err == None ==> p.chunks == count) && p.err != Some(IncompleteFile)
    decreases count - chunks
  {
    hide ReadFramesOf;
    if chunks < count {
      var got := ReceiveChunk(suite, key, chunks, s);
      FramesNeverIncomplete(s);
      if got.result.Ok? {
        var data := got.result.value;
        CountReached(suite, key, count, faults, chunks + 1, offset + |data|, temp + data, got.rest);
      }
    }
  }

  lemma FramesNeverIncomplete(s: seq<byte>)
    ensures ReadFramesOf(s, 2).result != Err(IncompleteFile)
  {
    hide ReadFramesOf;
    hide ReadBytesOf;
    ReadsTwo(s);
    ReadBytesErrors(s);
    ReadBytesErrors(ReadBytesOf(s).rest);
  }

  lemma ReadBytesErrors(s: seq<byte>)
    ensures ReadBytesOf(s).result.Err? ==>
      var e := ReadBytesOf(s).result.error;
      e == EOF || e == UnexpectedEOF || e.Coded?
  {
  }

  // For every stream and every disk fault: when the transfer itself does not
  // fail, exactly the announced number of chunks was accepted, so the branch for
  // an incomplete file is never taken.
  lemma NeverIncomplete(suite: Suite, sender: PublicKey, receiver: PrivateKey, faults: nat -> Option<nat>, s: seq<byte>)
    ensures var d := ReceiveFile(suite, sender, receiver, faults, s);
      && d.progress.chunks <= d.header.count
      && (d.progress.err == None ==> d.progress.chunks == d.header.count)
      && d.progress.err != Some(IncompleteFile)
  {
    hide ReadFramesOf;
    hide ReceiveChunks;
    FramesNeverIncomplete(s);
    FramesNeverIncomplete(ReadFramesOf(s, 2).rest);
    var header := ReceiveHeader(suite, sender, receiver, s);
    if header.result.Ok? {
      CountReached(suite, header.result.value.key, header.result.value.count, faults, 0, 0, [], header.rest);
    }
  }
}
