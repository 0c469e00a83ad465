// The state object that sends or receives one file.
module ChunkFiles {
  import opened Tables
  import opened Base
  import opened BigEndian
  import opened Streams
  import opened Directories
  import opened Framing
  import opened Crypto
  import opened Chunks
  import opened Deliveries

  const Int64Max: nat := 0x7FFF_FFFF_FFFF_FFFF

  lemma TagAdded(suite: Suite, t: Transfer)
    requires Lawful(suite)
    ensures |SealedName(suite, t)| == |t.fileName| + 16
  {
  }

  // A directory that got the file under a new name differs from the one before
  // and from one that only lost the temp file.
  lemma RenamedDiffers(entries: map<Path, Stream>, file: Stream, temp: Path, to: Path)
    requires temp.Temp? && to.Download? && temp in entries
    requires forall p :: p in entries ==> (entries[p] == file <==> p == temp)
    ensures entries[to := file] - {temp} != entries
    ensures entries[to := file] - {temp} != entries - {temp}
  {
    var renamed := entries[to := file] - {temp};
    assert to in renamed && renamed[to] == file;
    assert temp !in renamed;
  }

  // Reading on from the offset of chunk i gives chunk i, and the wrapped
  // counter numbers it like i.
  lemma ChunkRead(suite: Suite, t: Transfer, i: nat)
    requires i < ChunkCount(|t.content|)
    ensures var left := t.content[Offset(|t.content|, i)..];
      var size := Offset(|t.content|, i + 1) - Offset(|t.content|, i);
      && left[..size] == Chunk(t.content, i)
      && left[size..] == t.content[Offset(|t.content|, i + 1)..]
      && suite.seal(t.key, t.ivs(i + 1), Uint16ToByte(Wrap16(i)) + left[..size]) == SealedChunk(suite, t, i)
  {
    Uint16Wrap(i);
    ChunkArithmetic(|t.content|, i);
    var left := t.content[Offset(|t.content|, i)..];
    var size := Offset(|t.content|, i + 1) - Offset(|t.content|, i);
    assert left[..size] == Chunk(t.content, i);
  }

  lemma NextOnWire(suite: Suite, t: Transfer, sent: seq<byte>, i: nat)
    requires i < ChunkCount(|t.content|) && Wire(suite, t) == sent + ChunksFrom(suite, t, i)
    ensures Wire(suite, t) == sent + ChunkFrames(suite, t, i) + ChunksFrom(suite, t, i + 1)
  {
    hide Wire;
    hide ChunkFrames;
    assert ChunksFrom(suite, t, i) == ChunkFrames(suite, t, i) + ChunksFrom(suite, t, i + 1);
  }

  lemma WireParts(suite: Suite, t: Transfer)
    ensures Wire(suite, t) ==
            Framed([t.sealedKey, t.signature]) + Framed([t.ivs(0), SealedName(suite, t)]) + ChunksFrom(suite, t, 0)
  {
    hide Framed;
  }

  lemma NothingLeft(suite: Suite, t: Transfer, i: nat)
    requires i >= ChunkCount(|t.content|)
    ensures ChunksFrom(suite, t, i) == []
  {
  }

  // Two frames in a row: on nil both are on the wire, on an error a prefix
  method WriteTwo(writer: Stream, a: seq<byte>, b: seq<byte>) returns (err: Option<Failure>)
    modifies writer`written, writer`writes
    ensures Grew(old(writer.written), writer.written, Framed([a, b]))
    ensures err == None ==>
      && |a| <= 0xFFFF_FFFF && |b| <= 0xFFFF_FFFF
      && writer.written == old(writer.written) + Framed([a, b])
    ensures NoFaults(writer.faults) && |a| <= 0xFFFF_FFFF && |b| <= 0xFFFF_FFFF ==> err == None
  {
    FramedTwo(a, b);
    hide Frame;
    hide Framed;
    ghost var start := writer.written;
    var _, errA := WriteBytes(writer, a);
    if errA != None {
      return errA;
    }
    var _, errB := WriteBytes(writer, b);
    GrewThen(start, Frame(a, None), writer.written, Frame(b, None), []);
    err := errB;
  }

  class AesGcmChunk {
    var key: seq<byte>
    var fileName: seq<byte>
    var readOffset: nat
    var readChunkNum: nat
    var writeOffset: nat
    var writeChunkNum: nat
    var fileSize: nat
    var chunkCount: nat
    const file: Stream
    const tempName: Path

    // A sender for an opened file of at most int64 size
    constructor EncryptSetup(symKey: seq<byte>, name: seq<byte>, srcFile: Stream, unrepresentable: nat)
      requires |symKey| == 32 && |srcFile.unread| <= Int64Max
      requires srcFile.open && unrepresentable <= 0xFFFF
      ensures ReadyToSend() && file == srcFile && fileName == name && key == symKey
      ensures chunkCount == ToUint16(ChunkCount(|srcFile.unread|), unrepresentable)
    {
      key, fileName, file, tempName := symKey, name, srcFile, Temp(0);
      readOffset, readChunkNum, writeOffset, writeChunkNum := 0, 0, 0, 0;
      fileSize := |srcFile.unread|;
      chunkCount := ToUint16(ChunkCount(|srcFile.unread|), unrepresentable);
    }

    ghost predicate ReadyToSend()
      reads this, file
    {
      && |key| == 32 && readOffset == 0 && readChunkNum == 0
      && fileSize == |file.unread| <= Int64Max && file.open
      && exists other: nat :: other <= 0xFFFF && chunkCount == ToUint16(ChunkCount(fileSize), other)
    }

    // A receiver with a new, empty temp file in the download directory
    constructor DecryptSetup(dir: Directory, id: nat, faults: nat -> Option<nat>, closeFails: bool)
      requires Temp(id) !in dir.entries
      modifies dir
      ensures ReadyToReceive(dir) && fresh(file)
      ensures file.faults == faults && file.closeFails == closeFails
      ensures tempName == Temp(id) && dir.entries == old(dir.entries)[Temp(id) := file]
    {
      key, fileName, tempName := [], [], Temp(id);
      readOffset, readChunkNum, writeOffset, writeChunkNum := 0, 0, 0, 0;
      fileSize, chunkCount := 0, 0;
      var tmpFile := new Stream([], faults, closeFails);
      file := tmpFile;
      new;
      dir.entries := dir.entries[Temp(id) := tmpFile];
    }

    // The fresh temp file is in the directory under its name, and only there.
    ghost predicate ReadyToReceive(dir: Directory)
      reads this, dir, file
    {
      && writeOffset == 0 && writeChunkNum == 0
      && file.written == [] && file.writes == 0 && file.open
      && tempName.Temp? && tempName in dir.entries
      && forall p :: p in dir.entries ==> (dir.entries[p] == file <==> p == tempName)
    }

    // The next chunk of the file, numbered and sealed
    method EncryptChunk(suite: Suite, chunkSize: nat, iv: seq<byte>) returns (sealed: seq<byte>, err: Option<Failure>)
      requires chunkSize > 0
      modifies this`readOffset, this`readChunkNum, file`unread
      ensures file.unread == ReadN(old(file.unread), chunkSize).rest
      ensures match ReadN(old(file.unread), chunkSize).result
        case Err(e) => err == Some(e) && readOffset == old(readOffset) && readChunkNum == old(readChunkNum)
        case Ok(data) =>
          && err == None && sealed == suite.seal(key, iv, Uint16ToByte(old(readChunkNum)) + data)
          && readOffset == Wrap64(old(readOffset) + chunkSize) && readChunkNum == Wrap16(old(readChunkNum) + 1)
    {
      var buffer := new byte[chunkSize];
      var _, readErr := file.ReadFull(buffer, chunkSize);
      if readErr != None {
        return [], readErr;
      }
      assert buffer[..] == buffer[..chunkSize];
      var currChunkNum := Uint16ToByte(readChunkNum);
      var plain := currChunkNum + buffer[..];
      sealed := suite.seal(key, iv, plain);
      readChunkNum := Wrap16(readChunkNum + 1);
      readOffset := Wrap64(readOffset + (|plain| - |currChunkNum|));
      err := None;
    }

    ghost function Outgoing(sealedKey: seq<byte>, signature: seq<byte>, ivs: nat -> seq<byte>,
                            content: seq<byte>): Transfer
      reads this
    {
      Transfer(key, chunkCount, fileName, content, sealedKey, signature, ivs)
    }

    // The state after i chunks of the file behind t
    ghost predicate Sent(t: Transfer, i: nat)
      reads this, file
    {
      && t.key == key && fileSize == |t.content| <= Int64Max
      && readOffset == Offset(fileSize, i) && readChunkNum == Wrap16(i)
      && file.unread == t.content[Offset(|t.content|, i)..]
    }

    // One pass of the sending loop: chunk i, the last one or a full one
    method SendChunk(writer: Stream, suite: Suite, iv: seq<byte>, ghost t: Transfer, ghost i: nat)
      returns (err: Option<Failure>)
      requires writer != file && Sent(t, i) && i < ChunkCount(fileSize) && iv == t.ivs(i + 1)
      modifies this`readOffset, this`readChunkNum, file`unread, writer`written, writer`writes
      ensures Sent(t, i + 1)
      ensures Grew(old(writer.written), writer.written, ChunkFrames(suite, t, i))
      ensures err == None ==> writer.written == old(writer.written) + ChunkFrames(suite, t, i)
      ensures NoFaults(writer.faults) && Lawful(suite) && |iv| == 12 ==> err == None
    {
      hide Framed;
      hide Chunk;
      hide Wrap16;
      hide Wrap64;
      ChunkArithmetic(fileSize, i);
      var sealed;
      if readOffset + ChunkSize >= fileSize {
        sealed, err := EncryptChunk(suite, fileSize - readOffset, iv);
      } else {
        sealed, err := EncryptChunk(suite, ChunkSize, iv);
      }
      WrapSum(i, 1);
      WrapSum(Offset(fileSize, i + 1), 0);
      ChunkRead(suite, t, i);
      err := WriteTwo(writer, iv, sealed);
    }

    // The IV draws 1, 2, ... seal the chunks; `done` is what is on the wire.
    method SendChunks(writer: Stream, suite: Suite, ivs: nat -> seq<byte>, ghost t: Transfer,
                      ghost before: seq<byte>, ghost done: seq<byte>)
      returns (err: Option<Failure>)
      requires writer != file && Sent(t, 0) && t.ivs == ivs
      requires writer.written == before + done && Wire(suite, t) == done + ChunksFrom(suite, t, 0)
      modifies this`readOffset, this`readChunkNum, file`unread, writer`written, writer`writes
      ensures Grew(before, writer.written, Wire(suite, t))
      ensures err == None ==>
        && writer.written == before + Wire(suite, t)
        && readOffset == fileSize && readChunkNum == Wrap16(ChunkCount(fileSize)) && file.unread == []
      ensures NoFaults(writer.faults) && Lawful(suite) && (forall i: nat :: |ivs(i)| == 12) ==> err == None
    {
      hide Wire;
      hide ChunksFrom;
      hide ChunkFrames;
      var drawn := 1;
      ghost var sent := done;
      while readOffset < fileSize
        invariant 1 <= drawn <= ChunkCount(fileSize) + 1 && Sent(t, drawn - 1)
        invariant writer.written == before + sent
        invariant Wire(suite, t) == sent + ChunksFrom(suite, t, drawn - 1)
        decreases fileSize - readOffset
      {
        ghost var i := drawn - 1;
        ChunkArithmetic(fileSize, i);
        NextOnWire(suite, t, sent, i);
        err := SendChunk(writer, suite, ivs(drawn), t, i);
        if err != None {
          GrewWithin(before, sent, writer.written, ChunkFrames(suite, t, i), ChunksFrom(suite, t, drawn),
                       Wire(suite, t));
          return;
        }
        sent := sent + ChunkFrames(suite, t, i);
        drawn := drawn + 1;
      }
      ChunkArithmetic(fileSize, drawn - 1);
      NothingLeft(suite, t, drawn - 1);
      err := None;
    }

    // Whatever goes wrong, the wire holds a prefix of the whole transfer; it
    // holds all of it when nil is returned, and then every byte of the file
    // was read and the counter, wrapping or not, counted the chunks.
    method Encrypt(writer: Stream, suite: Suite, receiverPubKey: PublicKey, senderPrivKey: PrivateKey,
                   seed: seq<byte>, salt: seq<byte>, ivs: nat -> seq<byte>) returns (err: Option<Failure>)
      requires ReadyToSend() && writer != file
      modifies this`readOffset, this`readChunkNum, file`unread, file`open, writer`written, writer`writes
      ensures match EncryptSignMsg(suite, KeyAndCount(key, chunkCount), receiverPubKey, senderPrivKey, seed, salt)
        case Err(e) => err == Some(e) && writer.written == old(writer.written)
        case Ok((sealedKey, signature)) =>
          var t := Outgoing(sealedKey, signature, ivs, old(file.unread));
          && Grew(old(writer.written), writer.written, Wire(suite, t))
          && (err == None ==>
               && writer.written == old(writer.written) + Wire(suite, t)
               && readOffset == fileSize && readChunkNum == Wrap16(ChunkCount(fileSize))
               && file.unread == [] && !file.open && !file.closeFails)
          && (Lawful(suite) && (forall i: nat :: |ivs(i)| == 12) && |fileName| + 16 <= 0xFFFF_FFFF ==>
               && Genuine(suite, t, senderPrivKey.id, receiverPubKey.id)
               && (NoFaults(writer.faults) && !file.closeFails ==> err == None))
    {
      hide Framed;
      hide ChunksFrom;
      hide Lawful;
      var sent := EncryptSignMsg(suite, KeyAndCount(key, chunkCount), receiverPubKey, senderPrivKey, seed, salt);
      if sent.Err? {
        return Some(sent.error);
      }
      var (sealedKey, signature) := sent.value;
      ghost var t := Outgoing(sealedKey, signature, ivs, file.unread);
      ghost var start := writer.written;
      ghost var keyFrames := Framed([sealedKey, signature]);
      ghost var nameFrames := Framed([ivs(0), SealedName(suite, t)]);
      ghost var chunkFrames := ChunksFrom(suite, t, 0);
      WireParts(suite, t);
      hide Wire;
      if Lawful(suite) {
        SignedMessageRoundTrip(suite, KeyAndCount(key, chunkCount), receiverPubKey.id, senderPrivKey.id, seed, salt);
        TagAdded(suite, t);
      }

      err := WriteTwo(writer, sealedKey, signature);
      if err != None {
        assert start == start + [] && [] + keyFrames == keyFrames;
        GrewWithin(start, [], writer.written, keyFrames, nameFrames + chunkFrames, Wire(suite, t));
        return;
      }
      err := WriteTwo(writer, ivs(0), suite.seal(key, ivs(0), fileName));
      if err != None {
        GrewWithin(start, keyFrames, writer.written, nameFrames, chunkFrames, Wire(suite, t));
        return;
      }
      assert writer.written == start + (keyFrames + nameFrames);
      err := SendChunks(writer, suite, ivs, t, start, keyFrames + nameFrames);
      if err != None {
        return;
      }
      err := file.Close();
    }

    method DecryptBytes(suite: Suite, sealed: seq<byte>, iv: seq<byte>) returns (r: Result<seq<byte>, Failure>)
      ensures r == Chunks.DecryptBytes(suite, key, sealed, iv)
    {
      if |iv| != 12 {
        return Err(Panicked);
      }
      var plain := suite.open(key, iv, sealed);
      r := if plain == None then Err(OpenFailed) else Ok(plain.value);
    }

    // Accepts the chunk that is due and counts it; any other outcome leaves the
    // counters alone.
    method DecryptChunk(suite: Suite, sealed: seq<byte>, iv: seq<byte>) returns (r: Result<seq<byte>, Failure>)
      modifies this`writeChunkNum, this`writeOffset
      ensures var plain := Chunks.DecryptBytes(suite, key, sealed, iv);
        r == if plain.Err? then plain else CheckChunk(plain.value, old(writeChunkNum))
      ensures r.Ok? ==>
        writeChunkNum == Wrap16(old(writeChunkNum) + 1) && writeOffset == Wrap64(old(writeOffset) + |r.value|)
      ensures r.Err? ==> writeChunkNum == old(writeChunkNum) && writeOffset == old(writeOffset)
    {
      var plain := DecryptBytes(suite, sealed, iv);
      if plain.Err? {
        return plain;
      }
      if |plain.value| < 2 {
        return Err(Panicked);
      }
      var currChunkNum := ByteToUint16(plain.value);
      var data := plain.value[2..];
      if writeChunkNum != currChunkNum {
        return Err(ChunkIncorrectOrder);
      }
      writeChunkNum := Wrap16(writeChunkNum + 1);
      writeOffset := Wrap64(writeOffset + |data|);
      r := Ok(data);
    }

    // One pass of the receiving loop up to the write
    method NextChunk(reader: Stream, suite: Suite) returns (r: Result<seq<byte>, Failure>)
      modifies this`writeChunkNum, this`writeOffset, reader`unread
      ensures Got(r, reader.unread) == ReceiveChunk(suite, key, old(writeChunkNum), old(reader.unread))
      ensures r.Ok? ==>
        writeChunkNum == Wrap16(old(writeChunkNum) + 1) && writeOffset == Wrap64(old(writeOffset) + |r.value|)
      ensures r.Err? ==> writeChunkNum == old(writeChunkNum) && writeOffset == old(writeOffset)
    {
      hide ReadFramesOf;
      var two := ReadTwo(reader);
      if two.Err? {
        return Err(two.error);
      }
      var (iv, sealed) := two.value;
      r := DecryptChunk(suite, sealed, iv);
    }

    // Reads the key, the count and the name into the state.
    method DecryptHeader(reader: Stream, suite: Suite, senderPubKey: PublicKey, receiverPrivKey: PrivateKey)
      returns (err: Option<Failure>)
      modifies this`key, this`chunkCount, this`fileName, reader`unread
      ensures var header := ReceiveHeader(suite, senderPubKey, receiverPrivKey, old(reader.unread));
        && reader.unread == header.rest
        && err == (match header.result case Err(e) => Some(e) case Ok(h) => None)
        && (header.result.Ok? ==> Header(key, chunkCount, fileName) == header.result.value)
    {
      hide ReadFramesOf;
      var two := ReadTwo(reader);
      if two.Err? {
        return Some(two.error);
      }
      var (sealedKey, signature) := two.value;
      var plain := DecryptVerifyMsg(suite, sealedKey, signature, senderPubKey, receiverPrivKey);
      if plain.Err? {
        return Some(plain.error);
      }
      if |plain.value| < 32 + 2 {
        return Some(Panicked);
      }
      key := plain.value[..32];
      chunkCount := ByteToUint16(plain.value[32..]);
      var named := ReadTwo(reader);
      if named.Err? {
        return Some(named.error);
      }
      var (iv, sealedName) := named.value;
      var name := DecryptBytes(suite, sealedName, iv);
      if name.Err? {
        return Some(name.error);
      }
      fileName := name.value;
      err := None;
    }

    // Closes the temp file and gives it the received name if all chunks were
    // counted; what is not published is removed.
    method Publish(dir: Directory) returns (err: Option<Failure>)
      requires file.open && tempName.Temp? && tempName in dir.entries
      modifies file`open, dir`entries
      ensures !file.open
      ensures err == None <==> writeChunkNum == chunkCount && !file.closeFails && !dir.renameFails
      ensures err.Some? ==>
        err.value == if dir.removeFails then RemoveFailed
                     else if file.closeFails then CloseFailed
                     else if writeChunkNum != chunkCount then IncompleteFile
                     else RenameFailed
      ensures dir.entries ==
        if err == None then old(dir.entries)[Download(fileName) := old(dir.entries)[tempName]] - {tempName}
        else if dir.removeFails then old(dir.entries)
        else old(dir.entries) - {tempName}
    {
      var closeErr := file.Close();
      if closeErr != None {
        var removeErr := dir.Remove(tempName);
        return if removeErr != None then removeErr else closeErr;
      }
      if writeChunkNum == chunkCount {
        var renameErr := dir.Rename(tempName, Download(fileName));
        if renameErr != None {
          var removeErr := dir.Remove(tempName);
          return if removeErr != None then removeErr else renameErr;
        }
      } else {
        var removeErr := dir.Remove(tempName);
        return if removeErr != None then removeErr else Some(IncompleteFile);
      }
      err := None;
    }

    // The receiving loop: counts chunks up to the announced number.
    method DecryptChunks(reader: Stream, suite: Suite) returns (err: Option<Failure>)
      requires reader != file && chunkCount <= 0xFFFF
      requires writeOffset == 0 && writeChunkNum == 0 && file.written == [] && file.writes == 0
      modifies this`writeChunkNum, this`writeOffset, reader`unread, file`written, file`writes
      ensures var p := ReceiveChunks(suite, key, chunkCount, file.faults, 0, 0, [], old(reader.unread));
        p == Progress(err, writeChunkNum, p.offset, file.written, reader.unread) && writeOffset == Wrap64(p.offset)
    {
      hide ReceiveChunk;
      hide Wrap64;
      WrapSum(0, 0);
      ghost var p := ReceiveChunks(suite, key, chunkCount, file.faults, 0, 0, [], reader.unread);
      ghost var offset: nat := 0;
      while writeChunkNum < chunkCount
        invariant writeChunkNum <= chunkCount && file.writes == writeChunkNum
        invariant writeOffset == Wrap64(offset)
        invariant p ==
          ReceiveChunks(suite, key, chunkCount, file.faults, writeChunkNum, offset, file.written, reader.unread)
        decreases chunkCount - writeChunkNum
      {
        var chunk := NextChunk(reader, suite);
        if chunk.Err? {
          return Some(chunk.error);
        }
        WrapSum(offset, |chunk.value|);
        offset := offset + |chunk.value|;
        assert chunk.value[..|chunk.value|] == chunk.value;
        var _, writeErr := file.Write(chunk.value);
        if writeErr != None {
          return writeErr;
        }
      }
      err := None;
    }

    // What is received is what ReceiveFile makes of the unread bytes, and it is
    // written to the temp file chunk by chunk. The result is nil exactly when
    // the temp file was renamed to the received name, and then exactly the
    // announced number of chunks was accepted. A transfer that fails leaves the
    // temp file and publishes nothing; one that cannot be closed or renamed
    // removes the temp file if it can. IncompleteFile is never returned.
    method Decrypt(reader: Stream, dir: Directory, suite: Suite, senderPubKey: PublicKey, receiverPrivKey: PrivateKey)
      returns (err: Option<Failure>)
      requires ReadyToReceive(dir) && reader != file
      modifies this, reader`unread, file`written, file`writes, file`open, dir`entries
      ensures var d := ReceiveFile(suite, senderPubKey, receiverPrivKey, file.faults, old(reader.unread));
        && reader.unread == d.progress.rest && file.written == d.progress.temp
        && writeChunkNum == d.progress.chunks && writeOffset == Wrap64(d.progress.offset)
        && (d.progress.err == None ==> Header(key, chunkCount, fileName) == d.header && writeChunkNum == chunkCount)
        && (err == None <==> d.progress.err == None && !file.closeFails && !dir.renameFails)
        && (d.progress.err.Some? ==> err == d.progress.err && dir.entries == old(dir.entries))
        && (d.progress.err == None ==> !file.open)
        && (d.progress.err == None && err.Some? ==>
             && dir.entries == (if dir.removeFails then old(dir.entries) else old(dir.entries) - {tempName})
             && err.value == if dir.removeFails then RemoveFailed
                             else if file.closeFails then CloseFailed
                             else RenameFailed)
      ensures err == None <==> dir.entries == old(dir.entries)[Download(fileName) := file] - {tempName}
      ensures err == None ==> writeChunkNum == chunkCount && writeOffset == Wrap64(|file.written|)
      ensures err != Some(IncompleteFile)
    {
      hide ReceiveHeader;
      hide ReceiveChunks;
      hide Wrap64;
      NeverIncomplete(suite, senderPubKey, receiverPrivKey, file.faults, reader.unread);
      WrapSum(0, 0);
      ghost var entries := dir.entries;
      err := DecryptHeader(reader, suite, senderPubKey, receiverPrivKey);
      RenamedDiffers(entries, file, tempName, Download(fileName));
      if err != None {
        return;
      }
      err := DecryptChunks(reader, suite);
      if err != None {
        return;
      }
      err := Publish(dir);
    }
  }

  // A file sent and received over a connection that may break anywhere: either
  // the receiver publishes exactly the file under exactly its name, or it
  // returns an error and the directory at most loses the temp file. Without a
  // fault it publishes.
  method EncryptThenDecrypt(sender: AesGcmChunk, receiver: AesGcmChunk, wire: Stream, dir: Directory, suite: Suite,
                            senderKeys: nat, receiverKeys: nat, seed: seq<byte>, salt: seq<byte>, ivs: nat -> seq<byte>)
    returns (sendErr: Option<Failure>, receiveErr: Option<Failure>)
    requires Lawful(suite) && (forall i: nat :: |ivs(i)| == 12)
    requires sender.ReadyToSend() && receiver.ReadyToReceive(dir)
    requires sender != receiver && wire !in {sender.file, receiver.file} && sender.file != receiver.file
    requires |sender.fileName| + 16 <= 0xFFFF_FFFF && sender.fileSize <= FullChunks(0xFFFF)
    requires wire.written == []
    modifies sender, sender.file, wire, receiver, receiver.file, dir
    ensures receiveErr == None ==>
      && dir.entries == old(dir.entries)[Download(old(sender.fileName)) := receiver.file] - {receiver.tempName}
      && receiver.file.written == old(sender.file.unread)
    ensures receiveErr.Some? ==>
      dir.entries == old(dir.entries) || dir.entries == old(dir.entries) - {receiver.tempName}
    ensures sendErr == None && NoFaults(receiver.file.faults) && !receiver.file.closeFails && !dir.renameFails ==>
      receiveErr == None
    ensures NoFaults(wire.faults) && !sender.file.closeFails && sendErr.Some? ==>
      EncryptSignMsg(suite, KeyAndCount(old(sender.key), old(sender.chunkCount)),
                     PublicKey(receiverKeys), PrivateKey(senderKeys), seed, salt).Err?
  {
    hide Wire;
    hide Genuine;
    hide Lawful;
    hide EncryptSignMsg;
    hide ReceiveFile;
    ghost var content := sender.file.unread;
    ghost var sent := EncryptSignMsg(suite, KeyAndCount(sender.key, sender.chunkCount),
                                     PublicKey(receiverKeys), PrivateKey(senderKeys), seed, salt);
    sendErr := sender.Encrypt(wire, suite, PublicKey(receiverKeys), PrivateKey(senderKeys), seed, salt, ivs);
    var reader := new Stream(wire.written, wire.faults, false);
    ghost var faults := receiver.file.faults;
    if sent.Ok? {
      ghost var t := Transfer(sender.key, sender.chunkCount, sender.fileName, content, sent.value.0, sent.value.1, ivs);
      PrefixReceived(suite, t, senderKeys, receiverKeys, faults, wire.written);
    } else {
      NothingReceived(suite, PublicKey(senderKeys), PrivateKey(receiverKeys), faults);
    }
    receiveErr := receiver.Decrypt(reader, dir, suite, PublicKey(senderKeys), PrivateKey(receiverKeys));
  }

  lemma NothingReceived(suite: Suite, sender: PublicKey, receiver: PrivateKey, faults: nat -> Option<nat>)
    ensures ReceiveFile(suite, sender, receiver, faults, []).progress.err == Some(EOF)
  {
  }

  lemma PrefixReceived(suite: Suite, t: Transfer, sender: nat, receiver: nat, faults: nat -> Option<nat>, s: seq<byte>)
    requires Genuine(suite, t, sender, receiver) && |t.content| <= FullChunks(0xFFFF)
    requires s <= Wire(suite, t)
    ensures var d := ReceiveFile(suite, PublicKey(sender), PrivateKey(receiver), faults, s);
      && (d.progress.err == None ==> d.header.fileName == t.fileName && d.progress.temp == t.content)
      && (NoFaults(faults) && s == Wire(suite, t) ==> d.progress.err == None)
  {
    hide ReceiveFile;
    hide Wire;
    hide Genuine;
    TakenExact(suite, t, sender, receiver);
    TruncationDetected(suite, t, sender, receiver, faults, |s|);
    assert Wire(suite, t)[..|s|] == s;
    if |s| == |Wire(suite, t)| {
      var none: nat -> Option<nat> := i => None;
      assert Wire(suite, t) + [] == s;
      RoundTrip(suite, t, sender, receiver, none, []);
      if ReceiveFile(suite, PublicKey(sender), PrivateKey(receiver), faults, s).progress.err == None {
        FileFaultFree(suite, PublicKey(sender), PrivateKey(receiver), faults, none, s);
      }
    }
  }
}
