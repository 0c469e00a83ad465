// The two self-delimiting wire formats: byte frames (4-byte size, error byte,
// data) and messages (4-byte size, error byte, command byte, data).
module Framing {
  import opened Tables
  import opened Base
  import opened BigEndian
  import opened Streams

  datatype Message = Message(data: seq<byte>, errorCode: byte, commandCode: byte)

  // Formats

  function ErrorByte(e: Option<Error>): byte {
    match e
    case None => 0
    case Some(entry) => entry.Code()
  }

  function Frame(b: seq<byte>, e: Option<Error>): seq<byte> {
    Uint32ToByte(|b|) + [ErrorByte(e)] + b
  }

  function MessageFrame(m: Message): seq<byte> {
    Uint32ToByte(|m.data|) + [m.errorCode, m.commandCode] + m.data
  }

  function EncodeAll(ms: seq<Message>): seq<byte> {
    if ms == [] then [] else MessageFrame(ms[0]) + EncodeAll(ms[1..])
  }

  // Where the parts of a frame and of a message are: the size, the error byte,
  // in a message the command byte, and the data.
  lemma Layout(b: seq<byte>, e: Option<Error>, m: Message)
    ensures var f := Frame(b, e);
      && |f| == 5 + |b| && f[..4] == Uint32ToByte(|b|)
      && f[4] == (if e == None then 0 else e.value.Code()) && f[5..] == b
    ensures var f := MessageFrame(m);
      && |f| == 6 + |m.data| && f[..4] == Uint32ToByte(|m.data|)
      && f[4] == m.errorCode && f[5] == m.commandCode && f[6..] == m.data
  {
    hide Bytes;
  }

  // Readers as functions of the unread bytes

  // What a received error byte stands for: nothing for 0, a table entry, or
  // UnknownCodeError for a byte without an entry
  function DecodeErrorByte(code: byte): Option<Error> {
    if code == 0 then None
    else match ErrorCodes(code)
      case None => Some(UnknownCodeError)
      case Some(e) => Some(e)
  }

  function ReadSizeOf(s: seq<byte>): Got<nat> {
    var size := ReadN(s, 4);
    match size.result
    case Err(e) => Got(Err(e), size.rest)
    case Ok(b) => Got(Ok(ByteToUint32(b)), size.rest)
  }

  function ReadErrorOf(s: seq<byte>): Got<Option<Error>> {
    var code := ReadN(s, 1);
    match code.result
    case Err(e) => Got(Err(e), code.rest)
    case Ok(b) => Got(Ok(DecodeErrorByte(b[0])), code.rest)
  }

  // The size in front of a frame
  function SizeIn(s: seq<byte>): (n: nat)
    requires |s| >= 4
    ensures n <= 0xFFFF_FFFF
  {
    ByteToUint32(s[..4])
  }

  // A whole byte frame or an end-of-stream error: EOF where one of the three
  // reads found nothing at all
  function ReadBytesErrOf(s: seq<byte>): (r: Got<(seq<byte>, Option<Error>)>)
    ensures r.result.Ok? ==> |s| == 5 + |r.result.value.0| + |r.rest|
  {
    if |s| < 5 || |s| < 5 + SizeIn(s) then
      Got(Err(if |s| == 0 || |s| == 4 || |s| == 5 then EOF else UnexpectedEOF), [])
    else
      Got(Ok((s[5..5 + SizeIn(s)], DecodeErrorByte(s[4]))), s[5 + SizeIn(s)..])
  }

  function ReadBytesOf(s: seq<byte>): Got<seq<byte>> {
    var got := ReadBytesErrOf(s);
    match got.result
    case Err(e) => Got(Err(e), got.rest)
    case Ok((b, None)) => Got(Ok(b), got.rest)
    case Ok((b, Some(entry))) => Got(Err(Coded(entry)), got.rest)
  }

  // A whole message or an end-of-stream error
  function ReadMessageOf(s: seq<byte>): (r: Got<Message>)
    ensures r.result.Ok? ==> |s| == 6 + |r.result.value.data| + |r.rest|
  {
    if |s| < 6 || |s| < 6 + SizeIn(s) then Got(Err(CutError(|s|)), [])
    else Got(Ok(Message(s[6..6 + SizeIn(s)], s[4], s[5])), s[6 + SizeIn(s)..])
  }

  // What a stream that ends `off` bytes into a message reads as
  function CutError(off: int): Failure {
    if off == 0 || off == 4 || off == 6 then EOF else UnexpectedEOF
  }

  // Byte frames

  // Reading succeeds exactly on the streams that start with a frame. The
  // error read is the one written, or UnknownCodeError for any byte the table
  // has no entry for.
  lemma ReadBytesErrExact(s: seq<byte>, b: seq<byte>, code: byte, rest: seq<byte>)
    ensures |b| <= 0xFFFF_FFFF && s == Uint32ToByte(|b|) + [code] + b + rest ==>
      ReadBytesErrOf(s) == Got(Ok((b, DecodeErrorByte(code))), rest)
    ensures ReadBytesErrOf(s).result.Ok? && b == ReadBytesErrOf(s).result.value.0 && rest == ReadBytesErrOf(s).rest ==>
      |b| <= 0xFFFF_FFFF && |s| == 5 + |b| + |rest| && s == Uint32ToByte(|b|) + [s[4]] + b + rest
      && ReadBytesErrOf(s).result.value.1 == DecodeErrorByte(s[4])
  {
    if |b| <= 0xFFFF_FFFF && s == Uint32ToByte(|b|) + [code] + b + rest {
      DecodeEncode(|b|);
      assert s[..4] == Uint32ToByte(|b|);
    }
    if ReadBytesErrOf(s).result.Ok? {
      EncodeDecode(s[..4]);
      assert s == s[..4] + [s[4]] + s[5..5 + SizeIn(s)] + s[5 + SizeIn(s)..];
    }
  }

  lemma DecodeErrorByteExact(e: Option<Error>, code: byte)
    ensures DecodeErrorByte(ErrorByte(e)) == e
    ensures code > 12 ==> DecodeErrorByte(code) == Some(UnknownCodeError)
    ensures code <= 12 ==> ErrorByte(DecodeErrorByte(code)) == code
  {
    ErrorTableInverse(code, if e == None then UnknownCodeError else e.value);
    ErrorTableInverse(ErrorByte(e), if e == None then UnknownCodeError else e.value);
    if DecodeErrorByte(code) != None {
      ErrorTableInverse(code, DecodeErrorByte(code).value);
    }
  }

  // Any data and any table error or nil come back as written, and the reader
  // stops right behind the frame.
  lemma ByteFrameRoundTrip(b: seq<byte>, e: Option<Error>, rest: seq<byte>)
    requires |b| <= 0xFFFF_FFFF
    ensures ReadBytesErrOf(Frame(b, e) + rest) == Got(Ok((b, e)), rest)
    ensures ReadBytesOf(Frame(b, None) + rest) == Got(Ok(b), rest)
  {
    ReadBytesErrExact(Frame(b, e) + rest, b, ErrorByte(e), rest);
    ReadBytesErrExact(Frame(b, None) + rest, b, 0, rest);
    DecodeErrorByteExact(e, 0);
  }

  // ReadBytes accepts exactly the error-free frames.
  lemma ReadBytesExact(s: seq<byte>, b: seq<byte>, rest: seq<byte>)
    ensures ReadBytesOf(s) == Got(Ok(b), rest) <==> |b| <= 0xFFFF_FFFF && s == Frame(b, None) + rest
  {
    if ReadBytesOf(s) == Got(Ok(b), rest) {
      ReadBytesErrExact(s, b, 0, rest);
    }
    if |b| <= 0xFFFF_FFFF && s == Frame(b, None) + rest {
      ByteFrameRoundTrip(b, None, rest);
    }
  }

  // A frame with any other code is read to its end and refused with the entry
  // of the code, or with UnknownCodeError when the table has none.
  lemma ReadBytesCoded(b: seq<byte>, code: byte, rest: seq<byte>)
    requires |b| <= 0xFFFF_FFFF && code != 0
    ensures ReadBytesOf(Uint32ToByte(|b|) + [code] + b + rest) ==
            Got(Err(Coded(if code > 12 then UnknownCodeError else ErrorCodes(code).value)), rest)
  {
    ReadBytesErrExact(Uint32ToByte(|b|) + [code] + b + rest, b, code, rest);
    ErrorTableInverse(code, UnknownCodeError);
    hide ReadBytesErrOf;
  }

  lemma ReadBytesRefused(b: seq<byte>, e: Error, rest: seq<byte>)
    requires |b| <= 0xFFFF_FFFF
    ensures ReadBytesOf(Frame(b, Some(e)) + rest) == Got(Err(Coded(e)), rest)
  {
    ReadBytesCoded(b, e.Code(), rest);
    ErrorTableInverse(e.Code(), e);
    hide ReadBytesOf;
  }

  lemma CutBehind(s: seq<byte>, at: nat, k: nat)
    requires at <= k <= |s|
    ensures s[..k][at..] == s[at..][..k - at]
  {
    forall i | 0 <= i < k - at ensures s[..k][at..][i] == s[at..][..k - at][i] {
    }
  }

  // Cutting a stream on which ReadBytes succeeds: inside the frame the read
  // fails at the end of the stream, behind it nothing changes.
  lemma ReadBytesCut(s: seq<byte>, b: seq<byte>, rest: seq<byte>, k: nat)
    requires ReadBytesOf(s) == Got(Ok(b), rest) && k <= |s|
    ensures |s| == 5 + |b| + |rest|
    ensures k < 5 + |b| ==>
      ReadBytesOf(s[..k]) == Got(Err(if k == 0 || k == 4 || k == 5 then EOF else UnexpectedEOF), [])
    ensures k >= 5 + |b| ==> ReadBytesOf(s[..k]) == Got(Ok(b), rest[..k - 5 - |b|])
  {
    var cut := s[..k];
    assert |b| == SizeIn(s) && rest == s[5 + |b|..] && b == s[5..5 + |b|];
    if k >= 4 {
      assert cut[..4] == s[..4];
      if k >= 5 + |b| {
        CutBehind(s, 5 + |b|, k);
        assert cut[5..5 + |b|] == s[5..5 + |b|];
      }
    }
  }

  // Several byte frames in a row

  function Framed(bs: seq<seq<byte>>): seq<byte> {
    if bs == [] then [] else Frame(bs[0], None) + Framed(bs[1..])
  }

  // Reading n frames in a row, stopping at the first error
  function ReadFramesOf(s: seq<byte>, n: nat): (r: Got<seq<seq<byte>>>)
    ensures r.result.Ok? ==> |r.result.value| == n
    decreases n, s
  {
    if n == 0 then Got(Ok([]), s) else
    var first := ReadBytesOf(s);
    if first.result.Err? then Got(Err(first.result.error), first.rest) else
    var others := ReadFramesOf(first.rest, n - 1);
    if others.result.Err? then others else
    Got(Ok([first.result.value] + others.result.value), others.rest)
  }

  ghost predicate Framable(bs: seq<seq<byte>>) {
    forall i :: 0 <= i < |bs| ==> |bs[i]| <= 0xFFFF_FFFF
  }

  // Frames are read back exactly from streams that start with them.
  lemma {:induction false} ReadFramesExact(s: seq<byte>, bs: seq<seq<byte>>, rest: seq<byte>)
    ensures ReadFramesOf(s, |bs|) == Got(Ok(bs), rest) <==> Framable(bs) && s == Framed(bs) + rest
    decreases |bs|
  {
    hide ReadBytesOf;
    hide Frame;
    if bs == [] {
      assert Framed(bs) + rest == rest;
    } else {
      assert [bs[0]] + bs[1..] == bs;
      if ReadFramesOf(s, |bs|) == Got(Ok(bs), rest) {
        var first := ReadBytesOf(s);
        ReadBytesExact(s, bs[0], first.rest);
        ReadFramesExact(first.rest, bs[1..], rest);
        assert s == Framed(bs) + rest;
      }
      if Framable(bs) && s == Framed(bs) + rest {
        assert s == Frame(bs[0], None) + (Framed(bs[1..]) + rest);
        ReadBytesExact(s, bs[0], Framed(bs[1..]) + rest);
        ReadFramesExact(Framed(bs[1..]) + rest, bs[1..], rest);
      }
    }
  }

  lemma FramedTwo(a: seq<byte>, b: seq<byte>)
    ensures Framed([a, b]) == Frame(a, None) + Frame(b, None)
  {
    assert [a, b][1..] == [b] && [b][1..] == [];
    assert Framed([b]) == Frame(b, None) + [];
  }

  // Messages

  lemma ReadMessageExact(s: seq<byte>, m: Message, rest: seq<byte>)
    ensures ReadMessageOf(s) == Got(Ok(m), rest) <==> |m.data| <= 0xFFFF_FFFF && s == MessageFrame(m) + rest
  {
    if |m.data| <= 0xFFFF_FFFF && s == MessageFrame(m) + rest {
      DecodeEncode(|m.data|);
      assert s[..4] == Uint32ToByte(|m.data|);
    }
    if ReadMessageOf(s) == Got(Ok(m), rest) {
      EncodeDecode(s[..4]);
      assert s == s[..4] + [s[4], s[5]] + s[6..6 + SizeIn(s)] + s[6 + SizeIn(s)..];
    }
  }

  ghost predicate Sendable(ms: seq<Message>) {
    forall i :: 0 <= i < |ms| ==> |ms[i].data| <= 0xFFFF_FFFF
  }

  // Reading n messages in a row, stopping at the first error
  function ReadManyOf(s: seq<byte>, n: nat): Got<seq<Message>> {
    if n == 0 then Got(Ok([]), s) else
    var first := ReadMessageOf(s);
    if first.result.Err? then Got(Err(first.result.error), first.rest) else
    var others := ReadManyOf(first.rest, n - 1);
    if others.result.Err? then others else
    Got(Ok([first.result.value] + others.result.value), others.rest)
  }

  lemma ReadManyStep(m: Message, rest: seq<byte>, n: nat)
    requires |m.data| <= 0xFFFF_FFFF && n > 0
    ensures var others := ReadManyOf(rest, n - 1);
      ReadManyOf(MessageFrame(m) + rest, n) ==
        if others.result.Err? then others else Got(Ok([m] + others.result.value), others.rest)
  {
    ReadMessageExact(MessageFrame(m) + rest, m, rest);
  }

  // A list of messages written back to back is read back in order, with every
  // code, and the bytes behind it stay unread.
  lemma {:induction false} MessageStreamRoundTrip(ms: seq<Message>, suffix: seq<byte>)
    requires Sendable(ms)
    ensures ReadManyOf(EncodeAll(ms) + suffix, |ms|) == Got(Ok(ms), suffix)
  {
    hide ReadMessageOf;
    if ms == [] {
      assert EncodeAll(ms) + suffix == suffix;
    } else {
      assert EncodeAll(ms) + suffix == MessageFrame(ms[0]) + (EncodeAll(ms[1..]) + suffix);
      ReadManyStep(ms[0], EncodeAll(ms[1..]) + suffix, |ms|);
      MessageStreamRoundTrip(ms[1..], suffix);
      assert [ms[0]] + ms[1..] == ms;
    }
  }

  // The read loop of the command handler: every whole message, and the error
  // that ends the loop
  datatype Drained = Drained(messages: seq<Message>, error: Failure)

  function ReadAllOf(s: seq<byte>): Drained
    decreases |s|
  {
    var first := ReadMessageOf(s);
    match first.result
    case Err(e) => Drained([], e)
    case Ok(m) =>
      var others := ReadAllOf(first.rest);
      Drained([m] + others.messages, others.error)
  }

  lemma EncodeAllCons(m: Message, ms: seq<Message>)
    ensures EncodeAll([m] + ms) == MessageFrame(m) + EncodeAll(ms)
  {
    assert ([m] + ms)[1..] == ms;
  }

  lemma ReadAllStep(m: Message, rest: seq<byte>)
    requires |m.data| <= 0xFFFF_FFFF
    ensures ReadAllOf(MessageFrame(m) + rest) == Drained([m] + ReadAllOf(rest).messages, ReadAllOf(rest).error)
  {
    ReadMessageExact(MessageFrame(m) + rest, m, rest);
  }

  // How many whole messages lie before the cut
  function WholeMessages(ms: seq<Message>, cut: nat): nat {
    if ms == [] || |MessageFrame(ms[0])| > cut then 0
    else 1 + WholeMessages(ms[1..], cut - |MessageFrame(ms[0])|)
  }

  lemma {:induction false} WholeMessagesExact(ms: seq<Message>, cut: nat)
    ensures var k := WholeMessages(ms, cut);
      k <= |ms| && |EncodeAll(ms[..k])| <= cut && (k < |ms| ==> cut < |EncodeAll(ms[..k + 1])|)
  {
    if ms != [] && |MessageFrame(ms[0])| <= cut {
      WholeMessagesExact(ms[1..], cut - |MessageFrame(ms[0])|);
      var k := WholeMessages(ms, cut);
      assert ms[..k][1..] == ms[1..][..k - 1];
      if k < |ms| {
        assert ms[..k + 1][1..] == ms[1..][..k];
      }
    } else if ms != [] {
      assert ms[..1][1..] == [];
    }
  }

  // An unfinished message is told by the position of the cut inside it: only a
  // cut between the fields reads as a clean end of the stream.
  lemma CutMessage(m: Message, off: nat)
    requires |m.data| <= 0xFFFF_FFFF && off < |MessageFrame(m)|
    ensures ReadMessageOf(MessageFrame(m)[..off]) ==
            Got(Err(CutError(off)), [])
  {
    var s := MessageFrame(m)[..off];
    if off >= 4 {
      assert s[..4] == Uint32ToByte(|m.data|);
      DecodeEncode(|m.data|);
    }
  }

  lemma {:induction false} EncodeAllSplit(ms: seq<Message>, k: nat)
    requires k <= |ms|
    ensures EncodeAll(ms) == EncodeAll(ms[..k]) + EncodeAll(ms[k..])
  {
    if k > 0 {
      EncodeAllSplit(ms[1..], k - 1);
      assert ms[..k] == [ms[0]] + ms[1..][..k - 1];
      EncodeAllCons(ms[0], ms[1..][..k - 1]);
    }
  }

  // Whole messages in front of anything are delivered before the rest.
  lemma {:induction false} ReadAllBehind(ms: seq<Message>, tail: seq<byte>)
    requires Sendable(ms)
    ensures ReadAllOf(EncodeAll(ms) + tail) == Drained(ms + ReadAllOf(tail).messages, ReadAllOf(tail).error)
  {
    hide ReadMessageOf;
    if ms == [] {
      assert EncodeAll(ms) + tail == tail;
    } else {
      assert EncodeAll(ms) + tail == MessageFrame(ms[0]) + (EncodeAll(ms[1..]) + tail);
      ReadAllStep(ms[0], EncodeAll(ms[1..]) + tail);
      ReadAllBehind(ms[1..], tail);
      assert [ms[0]] + (ms[1..] + ReadAllOf(tail).messages) == ms + ReadAllOf(tail).messages;
    }
  }

  lemma WholeStream(ms: seq<Message>)
    requires Sendable(ms)
    ensures ReadAllOf(EncodeAll(ms)) == Drained(ms, EOF)
  {
    ReadAllBehind(ms, []);
    assert EncodeAll(ms) + [] == EncodeAll(ms) && ms + [] == ms;
  }

  // What is left of a stream behind its whole messages, as seen by the loop
  lemma CutTail(ms: seq<Message>, k: nat, off: nat)
    requires Sendable(ms) && k <= |ms| && off <= |EncodeAll(ms[k..])|
    requires k < |ms| ==> off < |MessageFrame(ms[k])|
    ensures ReadAllOf(EncodeAll(ms[k..])[..off]) == Drained([], CutError(off))
  {
    if k < |ms| {
      assert EncodeAll(ms[k..])[..off] == MessageFrame(ms[k])[..off];
      CutMessage(ms[k], off);
    }
  }

  lemma EncodeAllNext(ms: seq<Message>, k: nat)
    requires k < |ms|
    ensures |EncodeAll(ms[..k + 1])| == |EncodeAll(ms[..k])| + |MessageFrame(ms[k])|
  {
    hide MessageFrame;
    EncodeAllSplit(ms[..k + 1], k);
    assert ms[..k + 1][..k] == ms[..k] && ms[..k + 1][k..] == [ms[k]];
    EncodeAllCons(ms[k], []);
    assert [ms[k]] + [] == [ms[k]] && EncodeAll([]) == [];
  }

  // Cutting a stream of messages anywhere: the loop returns exactly the whole
  // messages before the cut. It ends with EOF iff the cut falls at offset 0, 4
  // or 6 of the unfinished message, where 6 needs data to follow.
  lemma CutStream(ms: seq<Message>, cut: nat)
    requires Sendable(ms) && cut <= |EncodeAll(ms)|
    ensures var k := WholeMessages(ms, cut);
      k <= |ms| &&
      var off := cut - |EncodeAll(ms[..k])|;
      ReadAllOf(EncodeAll(ms)[..cut]) ==
        Drained(ms[..k], if off == 0 || off == 4 || off == 6 then EOF else UnexpectedEOF)
  {
    hide ReadMessageOf;
    hide ReadAllOf;
    hide EncodeAll;
    hide MessageFrame;
    hide WholeMessages;
    var k := WholeMessages(ms, cut);
    WholeMessagesExact(ms, cut);
    var off := cut - |EncodeAll(ms[..k])|;
    EncodeAllSplit(ms, k);
    if k < |ms| {
      EncodeAllNext(ms, k);
    }
    assert EncodeAll(ms)[..cut] == EncodeAll(ms[..k]) + EncodeAll(ms[k..])[..off];
    ReadAllBehind(ms[..k], EncodeAll(ms[k..])[..off]);
    CutTail(ms, k, off);
  }

  // Two different lists never produce the same bytes.
  lemma EncodingInjective(ms: seq<Message>, ns: seq<Message>)
    requires Sendable(ms) && Sendable(ns)
    ensures EncodeAll(ms) == EncodeAll(ns) <==> ms == ns
  {
    hide ReadMessageOf;
    WholeStream(ms);
    WholeStream(ns);
  }

  // The readers and writers over streams

  // Reading k bytes and then n bytes is slicing at absolute positions.
  lemma SliceTwice(s: seq<byte>, at: nat, k: nat, n: nat)
    requires at + k <= |s|
    ensures s[at..][k..] == s[at + k..]
    ensures at + k + n <= |s| ==> s[at..][k..][..n] == s[at + k..at + k + n] && s[at..][k..][n..] == s[at + k + n..]
  {
  }

  // The first bytes of a buffer of n zeros
  function Padded(s: seq<byte>, n: nat): (b: seq<byte>)
    requires |s| <= n
    ensures |b| == n && s <= b && forall i :: |s| <= i < n ==> b[i] == 0
    decreases n - |s|
  {
    if |s| == n then s else Padded(s + [0], n)
  }

  // The buffer is returned as far as it was filled, also beside an error.
  method ReadNBytes(reader: Stream, n: nat) returns (b: seq<byte>, err: Option<Failure>)
    modifies reader`unread
    ensures var s := old(reader.unread);
      && reader.unread == ReadN(s, n).rest
      && match ReadN(s, n).result
         case Ok(data) => err == None && b == data
         case Err(e) => err == Some(e) && b == Padded(s, n)
  {
    if n == 0 {
      assert reader.unread[0..] == reader.unread;
      return [], None;
    }
    var buffer := new byte[n](_ => 0);
    var read, readErr := reader.ReadFull(buffer, n);
    assert buffer[..] == buffer[..n] == buffer[..read] + buffer[read..];
    if readErr != None {
      assert buffer[..] == Padded(old(reader.unread), n);
    }
    return buffer[..], readErr;
  }

  method ReadSize(reader: Stream) returns (r: Result<nat, Failure>)
    modifies reader`unread
    ensures Got(r, reader.unread) == ReadSizeOf(old(reader.unread))
  {
    var b, err := ReadNBytes(reader, 4);
    r := if err == None then Ok(ByteToUint32(b)) else Err(err.value);
  }

  method ReadErrorCode(reader: Stream) returns (r: Result<Option<Error>, Failure>)
    modifies reader`unread
    ensures Got(r, reader.unread) == ReadErrorOf(old(reader.unread))
  {
    var b, err := ReadNBytes(reader, 1);
    if err != None {
      return Err(err.value);
    }
    if b[0] != 0 {
      var readError := ErrorCodes(b[0]);
      return Ok(if readError == None then Some(UnknownCodeError) else readError);
    }
    r := Ok(None);
  }

  // The error entry is returned as soon as its byte was read, also beside an
  // error of reading the data.
  method ReadBytesErr(reader: Stream) returns (b: Result<seq<byte>, Failure>, errorCode: Option<Error>)
    modifies reader`unread
    ensures var got := ReadBytesErrOf(old(reader.unread));
      && reader.unread == got.rest
      && b == (match got.result case Err(e) => Err(e) case Ok((data, _)) => Ok(data))
      && errorCode == if |old(reader.unread)| < 5 then None else DecodeErrorByte(old(reader.unread)[4])
  {
    ghost var s := reader.unread;
    var size := ReadSize(reader);
    if size.Err? {
      return Err(size.error), None;
    }
    var readError := ReadErrorCode(reader);
    if readError.Err? {
      return Err(readError.error), None;
    }
    SliceTwice(s, 4, 1, size.value);
    var data, err := ReadNBytes(reader, size.value);
    return if err == None then Ok(data) else Err(err.value), readError.value;
  }

  method ReadBytes(reader: Stream) returns (r: Result<seq<byte>, Failure>)
    modifies reader`unread
    ensures Got(r, reader.unread) == ReadBytesOf(old(reader.unread))
  {
    var b, errCode := ReadBytesErr(reader);
    if b.Err? {
      return b;
    }
    if errCode != None {
      return Err(Coded(errCode.value));
    }
    r := b;
  }

  // Two frames in a row: a key and its signature, or an IV and what it sealed
  method ReadTwo(reader: Stream) returns (r: Result<(seq<byte>, seq<byte>), Failure>)
    modifies reader`unread
    ensures var two := ReadFramesOf(old(reader.unread), 2);
      && reader.unread == two.rest
      && r == match two.result case Err(e) => Err(e) case Ok(bs) => Ok((bs[0], bs[1]))
  {
    hide ReadBytesOf;
    ghost var s := reader.unread;
    ReadsTwo(s);
    var a := ReadBytes(reader);
    if a.Err? {
      return Err(a.error);
    }
    var b := ReadBytes(reader);
    if b.Err? {
      return Err(b.error);
    }
    r := Ok((a.value, b.value));
  }

  lemma ReadsTwo(s: seq<byte>)
    ensures var a := ReadBytesOf(s);
      var b := ReadBytesOf(a.rest);
      ReadFramesOf(s, 2) ==
        if a.result.Err? then Got(Err(a.result.error), a.rest)
        else if b.result.Err? then Got(Err(b.result.error), b.rest)
        else Got(Ok([a.result.value, b.result.value]), b.rest)
  {
    hide ReadBytesOf;
    var a := ReadBytesOf(s);
    if a.result.Ok? {
      var b := ReadBytesOf(a.rest);
      if b.result.Ok? {
        var none: seq<seq<byte>> := [];
        assert ReadFramesOf(b.rest, 0) == Got(Ok(none), b.rest);
        assert [b.result.value] + none == [b.result.value];
        assert ReadFramesOf(a.rest, 1) == Got(Ok([b.result.value]), b.rest);
        assert [a.result.value] + [b.result.value] == [a.result.value, b.result.value];
      }
    }
  }

  // Once the header was read there is a message, also beside an error of
  // reading its data; then its data is what was read, in a buffer of zeros of
  // the announced size.
  method ReadMessage(reader: Stream) returns (msg: Option<Message>, err: Option<Failure>)
    modifies reader`unread
    ensures var s := old(reader.unread);
      var got := ReadMessageOf(s);
      && reader.unread == got.rest
      && match got.result
         case Ok(m) => err == None && msg == Some(m)
         case Err(e) =>
           && err == Some(e)
           && msg == if |s| < 6 then None else Some(Message(Padded(s[6..], SizeIn(s)), s[4], s[5]))
  {
    ghost var s := reader.unread;
    var size := ReadSize(reader);
    if size.Err? {
      return None, Some(size.error);
    }
    var header, headerErr := ReadNBytes(reader, 2);
    if headerErr != None {
      return None, headerErr;
    }
    SliceTwice(s, 4, 2, size.value);
    var data, dataErr := ReadNBytes(reader, size.value);
    return Some(Message(data, header[0], header[1])), dataErr;
  }

  // The loop of the command handler, collecting what it would dispatch
  method ReadUntilError(conn: Stream) returns (dispatched: seq<Message>, err: Failure)
    modifies conn`unread
    ensures Drained(dispatched, err) == ReadAllOf(old(conn.unread))
  {
    hide ReadMessageOf;
    hide ReadAllOf;
    dispatched := [];
    while true
      invariant ReadAllOf(old(conn.unread)) ==
                Drained(dispatched + ReadAllOf(conn.unread).messages, ReadAllOf(conn.unread).error)
      decreases |conn.unread|
    {
      ReadAllNext(conn.unread);
      var msg, readErr := ReadMessage(conn);
      if readErr != None {
        return dispatched, readErr.value;
      }
      dispatched := dispatched + [msg.value];
    }
  }

  // Reading on to the first error, one message at a time
  lemma ReadAllNext(s: seq<byte>)
    ensures var got := ReadMessageOf(s);
      match got.result
      case Err(e) => ReadAllOf(s) == Drained([], e)
      case Ok(m) =>
        && |got.rest| < |s|
        && ReadAllOf(s) == Drained([m] + ReadAllOf(got.rest).messages, ReadAllOf(got.rest).error)
  {
    hide ReadMessageOf;
  }

  // On nil the whole message is on the wire; on an error some prefix of it.
  method WriteMessage(writer: Stream, b: seq<byte>, errorToWrite: Option<Error>, command: Command)
    returns (n: nat, err: Option<Failure>)
    modifies writer`written, writer`writes
    ensures var frame := MessageFrame(Message(b, ErrorByte(errorToWrite), command.Code()));
      if |b| > 0xFFFF_FFFF then
        n == 0 && err == Some(SizeOverflow) && writer.written == old(writer.written)
      else
        n == |writer.written| - |old(writer.written)| && Grew(old(writer.written), writer.written, frame)
        && (err == None <==> writer.faults(old(writer.writes)) == None)
        && (err == None ==> writer.written == old(writer.written) + frame)
  {
    var size := IntToUint32(|b|);
    if size.Err? {
      return 0, Some(size.error);
    }
    var header := Uint32ToByte(size.value) + [ErrorByte(errorToWrite), command.Code()];
    n, err := writer.Write(header + b);
  }

  // On nil the whole frame is on the wire, after two writes; on an error some
  // prefix of it.
  method WriteBytesErr(writer: Stream, b: seq<byte>, errorToWrite: Option<Error>)
    returns (n: nat, err: Option<Failure>)
    modifies writer`written, writer`writes
    ensures Grew(old(writer.written), writer.written, Frame(b, errorToWrite))
    ensures |b| > 0xFFFF_FFFF ==> err == Some(SizeOverflow) && writer.written == old(writer.written)
    ensures |b| > 0xFFFF_FFFF || writer.faults(old(writer.writes)).Some? ==> n == 0
    ensures err == None <==>
      |b| <= 0xFFFF_FFFF && writer.faults(old(writer.writes)) == None && writer.faults(old(writer.writes) + 1) == None
    ensures err == None ==>
      && n == |b| && writer.written == old(writer.written) + Frame(b, errorToWrite)
      && writer.writes == old(writer.writes) + 2
  {
    var size := IntToUint32(|b|);
    if size.Err? {
      return 0, Some(size.error);
    }
    var header := Uint32ToByte(size.value) + [ErrorByte(errorToWrite)];
    n, err := writer.Write(header);
    if err != None {
      assert header[..n] <= Frame(b, errorToWrite);
      return 0, err;
    }
    n, err := writer.Write(b);
    assert writer.written == old(writer.written) + (header + b[..n]);
    assert header + b[..n] <= Frame(b, errorToWrite);
  }

  method WriteBytes(writer: Stream, b: seq<byte>) returns (n: nat, err: Option<Failure>)
    modifies writer`written, writer`writes
    ensures Grew(old(writer.written), writer.written, Frame(b, None))
    ensures |b| > 0xFFFF_FFFF ==> err == Some(SizeOverflow) && writer.written == old(writer.written)
    ensures err == None <==>
      |b| <= 0xFFFF_FFFF && writer.faults(old(writer.writes)) == None && writer.faults(old(writer.writes) + 1) == None
    ensures err == None ==>
      n == |b| && writer.written == old(writer.written) + Frame(b, None) && writer.writes == old(writer.writes) + 2
  {
    n, err := WriteBytesErr(writer, b, None);
  }
}
