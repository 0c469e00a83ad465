// The chunked transfer as functions: what the sender puts on the wire for a
// file, and what the receiver makes of any bytes.
module Chunks {
  import opened Tables
  import opened Base
  import opened BigEndian
  import opened Streams
  import opened Framing
  import opened Crypto

  const ChunkSize: nat := 16777216

  // The sender

  // Size of n full chunks, n * ChunkSize. The literal keeps the arithmetic linear.
  function FullChunks(n: nat): (size: nat)
    ensures size >= n && (n > 0 ==> size >= ChunkSize)
  {
    n * 16777216
  }

  // Number of chunks of a file, before it is narrowed to 16 bits
  function ChunkCount(size: nat): nat {
    (size + 16777215) / 16777216
  }

  // uint16 of a float64: exact when it fits, and otherwise some uint16 that the
  // language leaves open
  function ToUint16(n: nat, unrepresentable: nat): nat {
    if n <= 0xFFFF then n else unrepresentable
  }

  // Offset of chunk i in a file of the given size
  function Offset(size: nat, i: nat): (o: nat)
    ensures o <= size
  {
    Min(FullChunks(i), size)
  }

  function Chunk(content: seq<byte>, i: nat): seq<byte> {
    content[Offset(|content|, i)..Offset(|content|, i + 1)]
  }

  // One file on its way: `sealedKey` and `signature` carry the key and the
  // count, and ivs(0) is the IV of the name, ivs(i + 1) that of chunk i.
  datatype Transfer = Transfer(
    key: seq<byte>, count: nat, fileName: seq<byte>, content: seq<byte>,
    sealedKey: seq<byte>, signature: seq<byte>, ivs: nat -> seq<byte>)

  function KeyAndCount(key: seq<byte>, count: nat): seq<byte> {
    key + Uint16ToByte(count)
  }

  function SealedChunk(suite: Suite, t: Transfer, i: nat): seq<byte> {
    suite.seal(t.key, t.ivs(i + 1), Uint16ToByte(i) + Chunk(t.content, i))
  }

  function ChunkFrames(suite: Suite, t: Transfer, i: nat): seq<byte> {
    Framed([t.ivs(i + 1), SealedChunk(suite, t, i)])
  }

  // Frames of chunk i and all later ones
  function ChunksFrom(suite: Suite, t: Transfer, i: nat): seq<byte>
    decreases |t.content| - FullChunks(i)
  {
    if FullChunks(i) >= |t.content| then []
    else ChunkFrames(suite, t, i) + ChunksFrom(suite, t, i + 1)
  }

  function SealedName(suite: Suite, t: Transfer): seq<byte> {
    suite.seal(t.key, t.ivs(0), t.fileName)
  }

  function HeaderFrames(suite: Suite, t: Transfer): seq<byte> {
    Framed([t.sealedKey, t.signature]) + Framed([t.ivs(0), SealedName(suite, t)])
  }

  function Wire(suite: Suite, t: Transfer): seq<byte> {
    HeaderFrames(suite, t) + ChunksFrom(suite, t, 0)
  }

  // Keys and IVs of the lengths the sender generates
  ghost predicate WellKeyed(suite: Suite, t: Transfer) {
    Lawful(suite) && |t.key| == 32 && forall i: nat :: |t.ivs(i)| == 12
  }

  // A transfer as Encrypt makes it, from key pair `sender` to key pair `receiver`
  ghost predicate Genuine(suite: Suite, t: Transfer, sender: nat, receiver: nat) {
    && WellKeyed(suite, t)
    && (exists other: nat :: other <= 0xFFFF && t.count == ToUint16(ChunkCount(|t.content|), other))
    && (exists seed: seq<byte>, salt: seq<byte> ::
         EncryptSignMsg(suite, KeyAndCount(t.key, t.count), PublicKey(receiver), PrivateKey(sender), seed, salt)
           == Ok((t.sealedKey, t.signature)))
    && |t.fileName| + 16 <= 0xFFFF_FFFF
  }

  // The receiver

  datatype Header = Header(key: seq<byte>, count: nat, fileName: seq<byte>)

  // Opening panics on an IV of the wrong length.
  function DecryptBytes(suite: Suite, key: seq<byte>, sealed: seq<byte>, iv: seq<byte>): Result<seq<byte>, Failure> {
    if |iv| != 12 then Err(Panicked)
    else match suite.open(key, iv, sealed)
      case None => Err(OpenFailed)
      case Some(plain) => Ok(plain)
  }

  // Slicing key and count out of a shorter plaintext panics.
  function SplitKey(plain: seq<byte>): Result<(seq<byte>, nat), Failure> {
    if |plain| < 32 + 2 then Err(Panicked)
    else Ok((plain[..32], ByteToUint16(plain[32..])))
  }

  // The sealed key and its signature, checked and split
  function ReceiveKey(suite: Suite, sender: PublicKey, receiver: PrivateKey, s: seq<byte>): (r: Got<(seq<byte>, nat)>)
    ensures r.result.Ok? ==> |r.result.value.0| == 32 && r.result.value.1 <= 0xFFFF
  {
    var two := ReadFramesOf(s, 2);
    if two.result.Err? then Got(Err(two.result.error), two.rest) else
    var plain := DecryptVerifyMsg(suite, two.result.value[0], two.result.value[1], sender, receiver);
    if plain.Err? then Got(Err(plain.error), two.rest) else
    Got(SplitKey(plain.value), two.rest)
  }

  // An IV and what is sealed with it: the file name, and every chunk
  function ReceiveSealed(suite: Suite, key: seq<byte>, s: seq<byte>): Got<seq<byte>> {
    var two := ReadFramesOf(s, 2);
    if two.result.Err? then Got(Err(two.result.error), two.rest) else
    Got(DecryptBytes(suite, key, two.result.value[1], two.result.value[0]), two.rest)
  }

  function ReceiveHeader(suite: Suite, sender: PublicKey, receiver: PrivateKey, s: seq<byte>): (r: Got<Header>)
    ensures r.result.Ok? ==> |r.result.value.key| == 32 && r.result.value.count <= 0xFFFF
  {
    var key := ReceiveKey(suite, sender, receiver, s);
    if key.result.Err? then Got(Err(key.result.error), key.rest) else
    var name := ReceiveSealed(suite, key.result.value.0, key.rest);
    if name.result.Err? then Got(Err(name.result.error), name.rest) else
    Got(Ok(Header(key.result.value.0, key.result.value.1, name.result.value)), name.rest)
  }

  // The data of a decrypted chunk when chunk number `expected` is due
  function CheckChunk(plain: seq<byte>, expected: nat): Result<seq<byte>, Failure> {
    if |plain| < 2 then Err(Panicked)
    else if ByteToUint16(plain) != expected then Err(ChunkIncorrectOrder)
    else Ok(plain[2..])
  }

  function ReceiveChunk(suite: Suite, key: seq<byte>, expected: nat, s: seq<byte>): Got<seq<byte>> {
    var plain := ReceiveSealed(suite, key, s);
    match plain.result
    case Err(e) => plain
    case Ok(p) => Got(CheckChunk(p, expected), plain.rest)
  }

  // State of the receiving loop: the two counters, the temp file, the unread
  // bytes, and the error that ended it, if any
  datatype Progress = Progress(err: Option<Failure>, chunks: nat, offset: nat, temp: seq<byte>, rest: seq<byte>)

  // The loop from its state after `chunks` accepted chunks; faults(i) is the
  // outcome of the i-th write to the temp file.
  function ReceiveChunks(suite: Suite, key: seq<byte>, count: nat, faults: nat -> Option<nat>,
                         chunks: nat, offset: nat, temp: seq<byte>, s: seq<byte>): (p: Progress)
    ensures chunks <= p.chunks
    ensures p.err == None ==> p.offset - offset == |p.temp| - |temp|
    decreases count - chunks
  {
    if chunks >= count then Progress(None, chunks, offset, temp, s) else
    var got := ReceiveChunk(suite, key, chunks, s);
    match got.result
    case Err(e) => Progress(Some(e), chunks, offset, temp, got.rest)
    case Ok(data) =>
      match faults(chunks)
      case Some(k) => Progress(Some(WriteFailed), chunks + 1, offset + |data|, temp + data[..Min(k, |data|)], got.rest)
      case None => ReceiveChunks(suite, key, count, faults, chunks + 1, offset + |data|, temp + data, got.rest)
  }

  // The header as received, or that of a fresh state when it was not
  datatype Delivery = Delivery(header: Header, progress: Progress)

  // Everything Decrypt does before it closes the temp file
  function ReceiveFile(suite: Suite, sender: PublicKey, receiver: PrivateKey, faults: nat -> Option<nat>,
                       s: seq<byte>): Delivery {
    var header := ReceiveHeader(suite, sender, receiver, s);
    match header.result
    case Err(e) => Delivery(Header([], 0, []), Progress(Some(e), 0, 0, [], header.rest))
    case Ok(h) => Delivery(h, ReceiveChunks(suite, h.key, h.count, faults, 0, 0, [], header.rest))
  }
}
