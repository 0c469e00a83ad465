// The buffered copy, and whole files sent as two byte frames.
module BinaryFiles {
  import opened Tables
  import opened Base
  import opened BigEndian
  import opened Streams
  import opened Directories
  import opened Framing
  import opened Deliveries

  const BufferSize: nat := 4096

  // The buffered copy

  datatype Copied = Copied(total: nat, err: Option<Failure>, out: seq<byte>, rest: seq<byte>)

  // Copying `size` bytes in pieces of at most BufferSize; faults(w) is the
  // outcome of the next write.
  function CopyOf(s: seq<byte>, size: nat, faults: nat -> Option<nat>, w: nat): (c: Copied)
    ensures c.total == |c.out| <= size
    ensures c.err == None ==> c.total == size
    decreases size
  {
    if size == 0 then Copied(0, None, [], s) else
    var n := Min(size, 4096);
    var piece := ReadN(s, n);
    match piece.result
    case Err(e) => Copied(0, Some(e), [], piece.rest)
    case Ok(b) =>
      match faults(w)
      case Some(k) => Copied(Min(k, n), Some(WriteFailed), b[..Min(k, n)], piece.rest)
      case None =>
        var others := CopyOf(piece.rest, size - n, faults, w + 1);
        Copied(n + others.total, others.err, b + others.out, others.rest)
  }

  // `c` after the bytes `out` have already been copied
  function Behind(out: seq<byte>, c: Copied): Copied {
    Copied(|out| + c.total, c.err, out + c.out, c.rest)
  }

  lemma BehindBoth(a: seq<byte>, b: seq<byte>, c: Copied)
    ensures Behind(a, Behind(b, c)) == Behind(a + b, c)
  {
    assert a + (b + c.out) == a + b + c.out;
  }

  lemma CopyNothing(s: seq<byte>, faults: nat -> Option<nat>, w: nat)
    ensures CopyOf(s, 0, faults, w) == Copied(0, None, [], s)
  {
  }

  // One pass: a whole piece is copied, or the copy ends there.
  lemma CopyNext(s: seq<byte>, size: nat, faults: nat -> Option<nat>, w: nat)
    requires size > 0
    ensures var n := Min(size, 4096);
      CopyOf(s, size, faults, w) ==
        if n > |s| then Copied(0, Some(if s == [] then EOF else UnexpectedEOF), [], [])
        else match faults(w)
          case None => Behind(s[..n], CopyOf(s[n..], size - n, faults, w + 1))
          case Some(k) => Copied(Min(k, n), Some(WriteFailed), s[..Min(k, n)], s[n..])
  {
  }

  lemma SplitSlices(s: seq<byte>, n: nat, size: nat)
    requires n <= size <= |s|
    ensures s[..n] + s[n..][..size - n] == s[..size] && s[n..][size - n..] == s[size..]
  {
  }

  lemma PrefixBehind(s: seq<byte>, n: nat, out: seq<byte>)
    requires n <= |s| && out <= s[n..]
    ensures s[..n] + out <= s
  {
    assert s == s[..n] + s[n..];
  }

  // Whatever the writer does, what it got is the beginning of the stream, and
  // on nil it is the slice.
  lemma {:induction false} CopyIsPrefix(s: seq<byte>, size: nat, faults: nat -> Option<nat>, w: nat)
    ensures CopyOf(s, size, faults, w).out <= s
    ensures CopyOf(s, size, faults, w).err == None ==>
      size <= |s| && CopyOf(s, size, faults, w) == Copied(size, None, s[..size], s[size..])
    decreases size
  {
    if size == 0 {
      assert s[0..] == s;
    } else {
      hide CopyOf;
      var n := Min(size, 4096);
      CopyNext(s, size, faults, w);
      if n <= |s| && faults(w) == None {
        var others := CopyOf(s[n..], size - n, faults, w + 1);
        CopyIsPrefix(s[n..], size - n, faults, w + 1);
        PrefixBehind(s, n, others.out);
        if others.err == None {
          SplitSlices(s, n, size);
        }
      }
    }
  }

  // On a stream that is long enough the copy succeeds, so it is the slice.
  lemma {:induction false} CopySucceeds(s: seq<byte>, size: nat, faults: nat -> Option<nat>, w: nat)
    requires NoFaults(faults) && size <= |s|
    ensures CopyOf(s, size, faults, w) == Copied(size, None, s[..size], s[size..])
    decreases size
  {
    if size == 0 {
      CopyNothing(s, faults, w);
    } else {
      hide CopyOf;
      var n := Min(size, 4096);
      CopySucceeds(s[n..], size - n, faults, w + 1);
      CopyNext(s, size, faults, w);
    }
    CopyIsPrefix(s, size, faults, w);
  }

  // On a shorter one it stops with the end-of-stream error after the whole
  // pieces the stream holds.
  lemma {:induction false} CopyStopsShort(s: seq<byte>, size: nat, faults: nat -> Option<nat>, w: nat)
    requires NoFaults(faults) && size > |s|
    ensures var whole := |s| / 4096 * 4096;
      CopyOf(s, size, faults, w) == Copied(whole, Some(if whole == |s| then EOF else UnexpectedEOF), s[..whole], [])
    decreases size
  {
    hide CopyOf;
    CopyNext(s, size, faults, w);
    if |s| >= 4096 {
      CopyStopsShort(s[4096..], size - 4096, faults, w + 1);
      var whole := |s[4096..]| / 4096 * 4096;
      assert |s| / 4096 * 4096 == whole + 4096;
      assert s[..4096] + s[4096..][..whole] == s[..whole + 4096];
    }
  }

  // One pass of the copying loop through the shared buffer
  method CopyPiece(reader: Stream, writer: Stream, readSize: nat, buffer: array<byte>)
    returns (written: nat, err: Option<Failure>)
    requires 0 < readSize <= buffer.Length && reader != writer
    modifies reader`unread, writer`written, writer`writes, buffer
    ensures var s := old(reader.unread);
      var fault := writer.faults(old(writer.writes));
      if readSize > |s| then
        && err == Some(if s == [] then EOF else UnexpectedEOF) && written == 0 && reader.unread == []
        && writer.written == old(writer.written) && writer.writes == old(writer.writes)
      else
        && err == (if fault == None then None else Some(WriteFailed)) && written == Accepted(fault, readSize)
        && reader.unread == s[readSize..]
        && writer.written == old(writer.written) + s[..written] && writer.writes == old(writer.writes) + 1
  {
    var read, readErr := reader.ReadFull(buffer, readSize);
    if readErr != None || read != readSize {
      return 0, readErr;
    }
    assert buffer[..readSize] == old(reader.unread)[..readSize];
    written, err := writer.Write(buffer[..readSize]);
    assert old(reader.unread)[..readSize][..written] == old(reader.unread)[..written];
  }

  // One pass seen from the whole copy `c`, of which `out` is already done
  lemma CopyAdvance(c: Copied, out: seq<byte>, s: seq<byte>, left: nat, faults: nat -> Option<nat>, w: nat)
    requires left > 0 && c == Behind(out, CopyOf(s, left, faults, w))
    ensures var n := Min(left, 4096);
      if n > |s| then c == Copied(|out|, Some(if s == [] then EOF else UnexpectedEOF), out, [])
      else match faults(w)
        case None => c == Behind(out + s[..n], CopyOf(s[n..], left - n, faults, w + 1))
        case Some(k) => c == Copied(|out| + Min(k, n), Some(WriteFailed), out + s[..Min(k, n)], s[n..])
  {
    hide CopyOf;
    CopyNext(s, left, faults, w);
    var n := Min(left, 4096);
    if n <= |s| && faults(w) == None {
      BehindBoth(out, s[..n], CopyOf(s[n..], left - n, faults, w + 1));
    }
  }

  lemma CopyDone(c: Copied, out: seq<byte>, s: seq<byte>, faults: nat -> Option<nat>, w: nat)
    requires c == Behind(out, CopyOf(s, 0, faults, w))
    ensures c == Copied(|out|, None, out, s)
  {
    assert out + [] == out;
  }

  // The buffer comes from a pool with whatever its last user left in it.
  method ReadWrite(reader: Stream, writer: Stream, size: nat, buffer: array<byte>)
    returns (totalReceived: nat, err: Option<Failure>)
    requires buffer.Length == BufferSize && reader != writer
    modifies reader`unread, writer`written, writer`writes, buffer
    ensures var c := CopyOf(old(reader.unread), size, writer.faults, old(writer.writes));
      && totalReceived == c.total && err == c.err
      && reader.unread == c.rest && writer.written == old(writer.written) + c.out
  {
    hide CopyOf;
    hide Behind;
    ghost var start := writer.written;
    ghost var out: seq<byte> := [];
    ghost var c := CopyOf(reader.unread, size, writer.faults, writer.writes);
    CopyBegin(c);
    totalReceived := 0;
    var readSize := BufferSize;
    while totalReceived < size
      invariant totalReceived == |out| <= size && readSize <= BufferSize
      invariant totalReceived + BufferSize <= size ==> readSize == BufferSize
      invariant writer.written == start + out
      invariant c == Behind(out, CopyOf(reader.unread, size - totalReceived, writer.faults, writer.writes))
      decreases size - totalReceived
    {
      if totalReceived + BufferSize > size {
        readSize := size - totalReceived;
      }
      ghost var before, left := reader.unread, size - totalReceived;
      assert readSize == Min(left, 4096);
      CopyAdvance(c, out, before, left, writer.faults, writer.writes);
      var written;
      written, err := CopyPiece(reader, writer, readSize, buffer);
      totalReceived := totalReceived + written;
      if err != None {
        assert writer.written == start + (out + before[..written]);
        return;
      }
      out := out + before[..readSize];
    }
    CopyDone(c, out, reader.unread, writer.faults, writer.writes);
    err := None;
  }

  lemma CopyBegin(c: Copied)
    requires c.total == |c.out|
    ensures c == Behind([], c)
  {
    assert [] + c.out == c.out;
  }

  // Whole files

  // A file on the wire: its name, then its content, each behind size and code
  function BinaryWire(name: seq<byte>, content: seq<byte>): seq<byte> {
    Frame(name, None) + Frame(content, None)
  }

  // Size and code in front of the content
  function ReadFileHeaderOf(s: seq<byte>): Got<(nat, Option<Error>)> {
    if |s| < 5 then Got(Err(if |s| == 0 || |s| == 4 then EOF else UnexpectedEOF), [])
    else Got(Ok((SizeIn(s), DecodeErrorByte(s[4]))), s[5..])
  }

  datatype Header = Header(name: seq<byte>, size: nat, code: Option<Error>)

  function ReadBinaryHeaderOf(s: seq<byte>): Got<Header> {
    var name := ReadBytesOf(s);
    if name.result.Err? then Got(Err(name.result.error), name.rest) else
    if name.result.value == [] then Got(Err(EmptyFileName), name.rest) else
    var file := ReadFileHeaderOf(name.rest);
    if file.result.Err? then Got(Err(file.result.error), file.rest) else
    Got(Ok(Header(name.result.value, file.result.value.0, file.result.value.1)), file.rest)
  }

  // What is received before the temp file is closed: the copy behind the header
  datatype Incoming = Incoming(header: Option<Header>, copied: Copied)

  function ReceiveBinaryOf(s: seq<byte>, faults: nat -> Option<nat>): Incoming {
    var header := ReadBinaryHeaderOf(s);
    match header.result
    case Err(e) => Incoming(None, Copied(0, Some(e), [], header.rest))
    case Ok(h) => Incoming(Some(h), CopyOf(header.rest, h.size, faults, 0))
  }

  lemma FileHeaderCut(n: nat, code: byte, rest: seq<byte>, k: nat)
    requires n <= 0xFFFF_FFFF && k <= 5 + |rest|
    ensures var s := (Uint32ToByte(n) + [code] + rest)[..k];
      ReadFileHeaderOf(s) ==
        if k < 5 then Got(Err(if k == 0 || k == 4 then EOF else UnexpectedEOF), [])
        else Got(Ok((n, DecodeErrorByte(code))), rest[..k - 5])
  {
    var s := (Uint32ToByte(n) + [code] + rest)[..k];
    if k >= 4 {
      DecodeEncode(n);
      assert s[..4] == Uint32ToByte(n);
      if k >= 5 {
        assert s[4] == code && s[5..] == rest[..k - 5];
      }
    }
  }

  // A name and a content behind any code byte: the code is decoded by the error
  // table, and the content is copied all the same.
  lemma BinaryWithCode(name: seq<byte>, content: seq<byte>, code: byte, faults: nat -> Option<nat>, suffix: seq<byte>)
    requires 0 < |name| <= 0xFFFF_FFFF && |content| <= 0xFFFF_FFFF
    ensures
      ReceiveBinaryOf(Frame(name, None) + (Uint32ToByte(|content|) + [code] + content) + suffix, faults) ==
      Incoming(Some(Header(name, |content|,
                           if code == 0 then None else if code > 12 then Some(UnknownCodeError) else ErrorCodes(code))),
               CopyOf(content + suffix, |content|, faults, 0))
  {
    hide ReadBytesOf;
    hide ReadFileHeaderOf;
    hide CopyOf;
    var file := Uint32ToByte(|content|) + [code] + (content + suffix);
    var wire := Frame(name, None) + (Uint32ToByte(|content|) + [code] + content) + suffix;
    assert wire == Frame(name, None) + file;
    ReadBytesExact(wire, name, file);
    FileHeaderCut(|content|, code, content + suffix, |file|);
    assert file[..|file|] == file && (content + suffix)[..|file| - 5] == content + suffix;
    ErrorTableInverse(code, UnknownCodeError);
  }

  // A file written with any error comes back with it.
  lemma BinaryWithError(name: seq<byte>, content: seq<byte>, e: Option<Error>, faults: nat -> Option<nat>,
                        suffix: seq<byte>)
    requires 0 < |name| <= 0xFFFF_FFFF && |content| <= 0xFFFF_FFFF
    ensures ReceiveBinaryOf(Frame(name, None) + Frame(content, e) + suffix, faults) ==
            Incoming(Some(Header(name, |content|, e)), CopyOf(content + suffix, |content|, faults, 0))
  {
    BinaryWithCode(name, content, ErrorByte(e), faults, suffix);
    DecodeErrorByteExact(e, 0);
    ErrorTableInverse(ErrorByte(e), UnknownCodeError);
    hide ReceiveBinaryOf;
    hide CopyOf;
    assert Frame(content, e) == Uint32ToByte(|content|) + [ErrorByte(e)] + content;
  }

  // A name that arrives with an error is refused with that error, before
  // anything is stored.
  lemma BinaryNameRefused(name: seq<byte>, e: Error, faults: nat -> Option<nat>, rest: seq<byte>)
    requires |name| <= 0xFFFF_FFFF
    ensures ReceiveBinaryOf(Frame(name, Some(e)) + rest, faults) == Incoming(None, Copied(0, Some(Coded(e)), [], rest))
  {
    hide ReadBytesOf;
    ReadBytesRefused(name, e, rest);
  }

  // Any non-empty name and any content come back, and the reader stops at
  // whatever follows; an empty name is refused.
  lemma BinaryRoundTrip(name: seq<byte>, content: seq<byte>, faults: nat -> Option<nat>, suffix: seq<byte>)
    requires |name| <= 0xFFFF_FFFF && |content| <= 0xFFFF_FFFF && NoFaults(faults)
    ensures var got := ReceiveBinaryOf(BinaryWire(name, content) + suffix, faults);
      if name == [] then got.header == None && got.copied.err == Some(EmptyFileName)
      else got == Incoming(Some(Header(name, |content|, None)), Copied(|content|, None, content, suffix))
  {
    if name == [] {
      hide ReadBytesOf;
      var file := Frame(content, None) + suffix;
      assert BinaryWire(name, content) + suffix == Frame(name, None) + file;
      ReadBytesExact(Frame(name, None) + file, name, file);
    } else {
      hide ReceiveBinaryOf;
      hide CopyOf;
      BinaryWithError(name, content, None, faults, suffix);
      CopySucceeds(content + suffix, |content|, faults, 0);
      assert (content + suffix)[..|content|] == content && (content + suffix)[|content|..] == suffix;
    }
  }

  // On every strict prefix of a file on the wire the receiver fails, whatever
  // the name and the disk; without other causes it fails at the end of the
  // stream, and only on strict prefixes.
  lemma BinaryCut(name: seq<byte>, content: seq<byte>, faults: nat -> Option<nat>, k: nat)
    requires |name| <= 0xFFFF_FFFF && |content| <= 0xFFFF_FFFF && k <= |BinaryWire(name, content)|
    ensures var err := ReceiveBinaryOf(BinaryWire(name, content)[..k], faults).copied.err;
      && (k < |BinaryWire(name, content)| ==> err.Some?)
      && (NoFaults(faults) && name != [] ==>
           if k < |BinaryWire(name, content)| then err.Some? && EndOfStream(err.value) else err == None)
  {
    hide ReadBytesOf;
    hide ReadFileHeaderOf;
    hide CopyOf;
    var file := Frame(content, None);
    var wire := BinaryWire(name, content);
    if k == |wire| {
      if NoFaults(faults) {
        assert wire[..k] == wire + [];
        BinaryRoundTrip(name, content, faults, []);
      }
      return;
    }
    ReadBytesExact(wire, name, file);
    ReadBytesCutAgrees(wire, k);
    var consumed := |wire| - |file|;
    if k >= consumed {
      assert file == Uint32ToByte(|content|) + [0] + content;
      FileHeaderCut(|content|, 0, content, k - consumed);
      if k - consumed >= 5 {
        var got := content[..k - consumed - 5];
        CopyIsPrefix(got, |content|, faults, 0);
        if NoFaults(faults) {
          CopyStopsShort(got, |content|, faults, 0);
        }
      }
    }
  }

  method WriteBinary(writer: Stream, srcFile: Stream, fileN: seq<byte>, buffer: array<byte>)
    returns (n: nat, err: Option<Failure>)
    requires writer != srcFile && buffer.Length == BufferSize
    modifies writer`written, writer`writes, srcFile`unread, srcFile`open, buffer
    ensures var content := old(srcFile.unread);
      && Grew(old(writer.written), writer.written, BinaryWire(fileN, content))
      && (|content| > 0xFFFF_FFFF ==> err == Some(SizeOverflow) && writer.written == old(writer.written))
      && (err == None ==> n == |content| && writer.written == old(writer.written) + BinaryWire(fileN, content))
      && (NoFaults(writer.faults) && |fileN| <= 0xFFFF_FFFF && |content| <= 0xFFFF_FFFF ==> err == None)
    ensures !srcFile.open
  {
    n, err := SendBinary(writer, srcFile, fileN, buffer);
    var _ := srcFile.Close();
  }

  method SendBinary(writer: Stream, srcFile: Stream, fileN: seq<byte>, buffer: array<byte>)
    returns (n: nat, err: Option<Failure>)
    requires writer != srcFile && buffer.Length == BufferSize
    modifies writer`written, writer`writes, srcFile`unread, buffer
    ensures var content := old(srcFile.unread);
      && Grew(old(writer.written), writer.written, BinaryWire(fileN, content))
      && (|content| > 0xFFFF_FFFF ==> err == Some(SizeOverflow) && writer.written == old(writer.written))
      && (err == None ==> n == |content| && writer.written == old(writer.written) + BinaryWire(fileN, content))
      && (NoFaults(writer.faults) && |fileN| <= 0xFFFF_FFFF && |content| <= 0xFFFF_FFFF ==> err == None)
  {
    hide Frame;
    hide CopyOf;
    ghost var content, start := srcFile.unread, writer.written;
    var size := IntToUint32(|srcFile.unread|);
    if size.Err? {
      return 0, Some(size.error);
    }
    ghost var name := Frame(fileN, None);
    var head := Uint32ToByte(size.value);
    FileParts(content);
    var _, nameErr := WriteBytes(writer, fileN);
    if nameErr != None {
      assert start + [] == start;
      GrewWithin(start, [], writer.written, name, Frame(content, None), BinaryWire(fileN, content));
      return 0, nameErr;
    }
    var w1, sizeErr := writer.Write(head);
    if sizeErr != None {
      assert head[..w1] <= head;
      GrewWithin(start, name, writer.written, head, [0] + content, BinaryWire(fileN, content));
      return 0, sizeErr;
    }
    var w2, codeErr := writer.Write([ErrorByte(None)]);
    if codeErr != None {
      GrewWithin(start, name + head, writer.written, [0], content, BinaryWire(fileN, content));
      return 0, codeErr;
    }
    assert writer.written == start + (name + head + [0]);
    CopyIsPrefix(srcFile.unread, size.value, writer.faults, writer.writes);
    if NoFaults(writer.faults) {
      CopySucceeds(srcFile.unread, size.value, writer.faults, writer.writes);
    }
    n, err := ReadWrite(srcFile, writer, size.value, buffer);
    GrewWithin(start, name + head + [0], writer.written, content, [], BinaryWire(fileN, content));
    assert content[..|content|] == content;
  }

  lemma FileParts(content: seq<byte>)
    ensures Frame(content, None) == Uint32ToByte(|content|) + [0] + content
  {
  }

  // Receives into a temp file and publishes it under the name only when all of
  // it is there. A failed transfer removes the temp file if it can; after a
  // failed close it stays.
  method ReadNBinary(reader: Stream, n: nat, fileN: seq<byte>, dir: Directory, id: nat,
                     faults: nat -> Option<nat>, closeFails: bool, buffer: array<byte>)
    returns (err: Option<Failure>, ghost tmp: Stream)
    requires Temp(id) !in dir.entries && buffer.Length == BufferSize
    modifies reader`unread, dir`entries, buffer
    ensures var c := CopyOf(old(reader.unread), n, faults, 0);
      && reader.unread == c.rest && fresh(tmp) && tmp.written == c.out
      && err == (if c.err.Some? then c.err
                 else if closeFails then Some(CloseFailed)
                 else if dir.renameFails then Some(RenameFailed)
                 else None)
      && dir.entries ==
           if err == None then old(dir.entries)[Download(fileN) := tmp]
           else if err == Some(CloseFailed) || dir.removeFails then old(dir.entries)[Temp(id) := tmp]
           else old(dir.entries)
  {
    hide CopyOf;
    ghost var before := dir.entries;
    var tmpFile := new Stream([], faults, closeFails);
    tmp := tmpFile;
    dir.entries := dir.entries[Temp(id) := tmpFile];
    CopyErrors(reader.unread, n, faults, 0);
    var _, copyErr := ReadWrite(reader, tmpFile, n, buffer);
    if copyErr != None {
      var _ := tmpFile.Close();
      var _ := dir.Remove(Temp(id));
      assert before[Temp(id) := tmpFile] - {Temp(id)} == before;
      return copyErr, tmp;
    }
    var closeErr := tmpFile.Close();
    if closeErr != None {
      return closeErr, tmp;
    }
    var renameErr := dir.Rename(Temp(id), Download(fileN));
    if renameErr != None {
      var _ := dir.Remove(Temp(id));
      assert before[Temp(id) := tmpFile] - {Temp(id)} == before;
      return renameErr, tmp;
    }
    assert before[Temp(id) := tmpFile][Download(fileN) := tmpFile] - {Temp(id)} == before[Download(fileN) := tmpFile];
    err := None;
  }

  lemma {:induction false} CopyErrors(s: seq<byte>, size: nat, faults: nat -> Option<nat>, w: nat)
    ensures CopyOf(s, size, faults, w).err != Some(CloseFailed)
    decreases size
  {
    if size == 0 {
      CopyNothing(s, faults, w);
    } else {
      hide CopyOf;
      CopyNext(s, size, faults, w);
      if Min(size, 4096) <= |s| && faults(w) == None {
        CopyErrors(s[Min(size, 4096)..], size - Min(size, 4096), faults, w + 1);
      }
    }
  }

  // The received code is returned, but a file that comes with one is stored all
  // the same.
  method ReadBinary(reader: Stream, dir: Directory, id: nat, faults: nat -> Option<nat>, closeFails: bool,
                    buffer: array<byte>)
    returns (errorCode: Option<Error>, err: Option<Failure>)
    requires Temp(id) !in dir.entries && buffer.Length == BufferSize
    modifies reader`unread, dir`entries, buffer
    ensures var got := ReceiveBinaryOf(old(reader.unread), faults);
      && reader.unread == got.copied.rest
      && err == (if got.copied.err.Some? then got.copied.err
                 else if closeFails then Some(CloseFailed)
                 else if dir.renameFails then Some(RenameFailed)
                 else None)
      && errorCode == (if got.header == None then None else got.header.value.code)
      && (got.header == None ==> dir.entries == old(dir.entries))
      && (err == None <==> got.copied.err == None && !closeFails && !dir.renameFails)
      && (err == None ==> var name := Download(got.header.value.name);
           && name in dir.entries && fresh(dir.entries[name]) && dir.entries[name].written == got.copied.out
           && dir.entries == old(dir.entries)[name := dir.entries[name]])
      && (err.Some? && err != Some(CloseFailed) && !dir.removeFails ==> dir.entries == old(dir.entries))
      && (err.Some? ==> dir.entries.Keys - {Temp(id)} == old(dir.entries).Keys)
  {
    hide CopyOf;
    hide ReadBytesOf;
    ghost var s := reader.unread;
    var fileN := ReadBytes(reader);
    if fileN.Err? {
      return None, Some(fileN.error);
    }
    if fileN.value == [] {
      return None, Some(EmptyFileName);
    }
    var size := ReadSize(reader);
    if size.Err? {
      return None, Some(size.error);
    }
    var errCode := ReadErrorCode(reader);
    if errCode.Err? {
      return None, Some(errCode.error);
    }
    assert fileN.value != [] && ReadBytesOf(s).rest[4..][1..] == ReadBytesOf(s).rest[5..];
    CopyErrors(reader.unread, size.value, faults, 0);
    ghost var tmp;
    err, tmp := ReadNBinary(reader, size.value, fileN.value, dir, id, faults, closeFails, buffer);
    errorCode := errCode.value;
  }
}
