// Which byte streams the receiver accepts, and as what: stated without the
// receiver, over the frames the stream is made of.
module Acceptance {
  import opened Tables
  import opened Base
  import opened BigEndian
  import opened Streams
  import opened Framing
  import opened Crypto
  import opened Chunks

  // An IV frame and the frame sealed with it, and the plaintext inside
  datatype Piece = Piece(iv: seq<byte>, sealed: seq<byte>, plain: seq<byte>)

  function PieceFrames(p: Piece): seq<byte> {
    Framed([p.iv, p.sealed])
  }

  ghost predicate Opens(suite: Suite, key: seq<byte>, p: Piece) {
    |p.iv| == 12 && |p.sealed| <= 0xFFFF_FFFF && suite.open(key, p.iv, p.sealed) == Some(p.plain)
  }

  // A piece that holds chunk number n with the given data
  ghost predicate HoldsChunk(suite: Suite, key: seq<byte>, p: Piece, n: nat) {
    Opens(suite, key, p) && |p.plain| >= 2 && p.plain[..2] == Uint16ToByte(n)
  }

  function AllFrames(ps: seq<Piece>): seq<byte> {
    if ps == [] then [] else PieceFrames(ps[0]) + AllFrames(ps[1..])
  }

  // The data of the chunks, put together
  function AllData(ps: seq<Piece>): seq<byte> {
    if ps == [] then []
    else (if |ps[0].plain| >= 2 then ps[0].plain[2..] else []) + AllData(ps[1..])
  }

  lemma SealedExact(suite: Suite, key: seq<byte>, s: seq<byte>, plain: seq<byte>, rest: seq<byte>)
    ensures ReceiveSealed(suite, key, s) == Got(Ok(plain), rest) <==>
            exists p: Piece :: Opens(suite, key, p) && p.plain == plain && s == PieceFrames(p) + rest
  {
    hide ReadFramesOf;
    hide Framed;
    if ReceiveSealed(suite, key, s) == Got(Ok(plain), rest) {
      var two := ReadFramesOf(s, 2).result.value;
      var p := Piece(two[0], two[1], plain);
      assert two == [p.iv, p.sealed];
      ReadFramesExact(s, [p.iv, p.sealed], rest);
      assert |[p.iv, p.sealed][1]| <= 0xFFFF_FFFF;
      assert Opens(suite, key, p) && s == PieceFrames(p) + rest;
    }
    forall p: Piece | Opens(suite, key, p) && p.plain == plain && s == PieceFrames(p) + rest
      ensures ReceiveSealed(suite, key, s) == Got(Ok(plain), rest)
    {
      ReadFramesExact(s, [p.iv, p.sealed], rest);
    }
  }

  // What the receiver makes of any two frames where the key is due: the first
  // check that fails is the error, and a short plaintext ends in a panic.
  lemma KeyOutcome(suite: Suite, sender: PublicKey, receiver: PrivateKey, sealedKey: seq<byte>,
                   signature: seq<byte>, rest: seq<byte>)
    requires |sealedKey| <= 0xFFFF_FFFF && |signature| <= 0xFFFF_FFFF
    ensures ReceiveKey(suite, sender, receiver, Framed([sealedKey, signature]) + rest) ==
      Got(match suite.decryptOAEP(receiver, sealedKey)
          case None => Err(DecryptionFailed)
          case Some(plain) =>
            if !suite.verifyPSS(sender, suite.hash(plain), signature) then Err(BadSignature)
            else if |plain| < 34 then Err(Panicked)
            else Ok((plain[..32], plain[32] as int * 0x100 + plain[33])),
          rest)
  {
    hide Framed;
    hide ReadFramesOf;
    var bs: seq<seq<byte>> := [sealedKey, signature];
    assert |bs[0]| <= 0xFFFF_FFFF && |bs[1]| <= 0xFFFF_FFFF;
    ReadFramesExact(Framed(bs) + rest, bs, rest);
    var plain := suite.decryptOAEP(receiver, sealedKey);
    if plain.Some? {
      VerifiedExactly(suite, sealedKey, signature, sender, receiver, plain.value);
    }
  }

  // And of any two frames where chunk number n is due: the IV must have its
  // length, the sealed bytes must open, and what they hold must start with n.
  lemma ChunkOutcome(suite: Suite, key: seq<byte>, n: nat, iv: seq<byte>, sealed: seq<byte>, rest: seq<byte>)
    requires |iv| <= 0xFFFF_FFFF && |sealed| <= 0xFFFF_FFFF
    ensures ReceiveChunk(suite, key, n, Framed([iv, sealed]) + rest) ==
      Got(if |iv| != 12 then Err(Panicked) else
          match suite.open(key, iv, sealed)
          case None => Err(OpenFailed)
          case Some(plain) =>
            if |plain| < 2 then Err(Panicked)
            else if plain[0] as int * 0x100 + plain[1] != n then Err(ChunkIncorrectOrder)
            else Ok(plain[2..]),
          rest)
  {
    hide Framed;
    hide ReadFramesOf;
    var bs: seq<seq<byte>> := [iv, sealed];
    assert |bs[0]| <= 0xFFFF_FFFF && |bs[1]| <= 0xFFFF_FFFF;
    ReadFramesExact(Framed(bs) + rest, bs, rest);
  }

  lemma CheckExact(plain: seq<byte>, n: nat)
    requires n <= 0xFFFF
    ensures CheckChunk(plain, n).Ok? <==> |plain| >= 2 && plain[..2] == Uint16ToByte(n)
    ensures CheckChunk(plain, n).Ok? ==> CheckChunk(plain, n).value == plain[2..]
  {
    if |plain| >= 2 {
      assert plain == plain[..2] + plain[2..];
      Uint16Bijection(plain[..2]);
      Uint16RoundTrip(n, plain[2..]);
    }
  }

  lemma ChunkExact(suite: Suite, key: seq<byte>, n: nat, s: seq<byte>) returns (p: Piece)
    requires n <= 0xFFFF && ReceiveChunk(suite, key, n, s).result.Ok?
    ensures var got := ReceiveChunk(suite, key, n, s);
      HoldsChunk(suite, key, p, n) && s == PieceFrames(p) + got.rest && got.result.value == p.plain[2..]
  {
    hide ReceiveSealed;
    hide CheckChunk;
    var got := ReceiveSealed(suite, key, s);
    SealedExact(suite, key, s, got.result.value, got.rest);
    p :| Opens(suite, key, p) && p.plain == got.result.value && s == PieceFrames(p) + got.rest;
    CheckExact(p.plain, n);
  }

  lemma ChunkAccepted(suite: Suite, key: seq<byte>, n: nat, p: Piece, rest: seq<byte>)
    requires n <= 0xFFFF && HoldsChunk(suite, key, p, n)
    ensures ReceiveChunk(suite, key, n, PieceFrames(p) + rest) == Got(Ok(p.plain[2..]), rest)
  {
    hide ReceiveSealed;
    hide CheckChunk;
    SealedExact(suite, key, PieceFrames(p) + rest, p.plain, rest);
    CheckExact(p.plain, n);
  }

  // Pieces numbered from `chunks` up to `count`
  ghost predicate HoldChunks(suite: Suite, key: seq<byte>, ps: seq<Piece>, chunks: nat, count: nat) {
    |ps| + chunks == count && forall j :: 0 <= j < |ps| ==> HoldsChunk(suite, key, ps[j], chunks + j)
  }

  // No write of the chunks from `chunks` up to `count` fails.
  ghost predicate Writable(faults: nat -> Option<nat>, chunks: nat, count: nat) {
    forall i :: chunks <= i < count ==> faults(i) == None
  }

  lemma {:induction false} ChunksAccepted(suite: Suite, key: seq<byte>, count: nat, faults: nat -> Option<nat>,
                                          chunks: nat, offset: nat, temp: seq<byte>, ps: seq<Piece>, rest: seq<byte>)
    requires count <= 0xFFFF && Writable(faults, chunks, count) && HoldChunks(suite, key, ps, chunks, count)
    ensures ReceiveChunks(suite, key, count, faults, chunks, offset, temp, AllFrames(ps) + rest) ==
            Progress(None, count, offset + |AllData(ps)|, temp + AllData(ps), rest)
    decreases count - chunks
  {
    hide ReceiveChunk;
    hide PieceFrames;
    if chunks == count {
      assert AllFrames(ps) + rest == rest && temp + AllData(ps) == temp;
    } else {
      var data := ps[0].plain[2..];
      assert AllFrames(ps) + rest == PieceFrames(ps[0]) + (AllFrames(ps[1..]) + rest);
      ChunkAccepted(suite, key, chunks, ps[0], AllFrames(ps[1..]) + rest);
      ChunksAccepted(suite, key, count, faults, chunks + 1, offset + |data|, temp + data, ps[1..], rest);
      assert temp + data + AllData(ps[1..]) == temp + AllData(ps);
    }
  }

  lemma {:induction false} ChunksExact(suite: Suite, key: seq<byte>, count: nat, faults: nat -> Option<nat>,
                                       chunks: nat, offset: nat, temp: seq<byte>, s: seq<byte>) returns (ps: seq<Piece>)
    requires chunks <= count <= 0xFFFF
    requires ReceiveChunks(suite, key, count, faults, chunks, offset, temp, s).err == None
    ensures var p := ReceiveChunks(suite, key, count, faults, chunks, offset, temp, s);
      && Writable(faults, chunks, count) && HoldChunks(suite, key, ps, chunks, count)
      && s == AllFrames(ps) + p.rest && p.temp == temp + AllData(ps)
    decreases count - chunks
  {
    hide ReceiveChunk;
    hide PieceFrames;
    hide HoldsChunk;
    if chunks == count {
      ps := [];
      assert temp + AllData(ps) == temp;
    } else {
      var got := ReceiveChunk(suite, key, chunks, s);
      var data := got.result.value;
      var first := ChunkExact(suite, key, chunks, s);
      var others := ChunksExact(suite, key, count, faults, chunks + 1, offset + |data|, temp + data, got.rest);
      ps := [first] + others;
      assert ps[1..] == others;
      ChunkHasNumber(suite, key, first, chunks);
      assert temp + data + AllData(others) == temp + (data + AllData(others));
    }
  }

  lemma ChunkHasNumber(suite: Suite, key: seq<byte>, p: Piece, n: nat)
    requires HoldsChunk(suite, key, p, n)
    ensures |p.plain| >= 2
  {
  }

  // Everything a stream must consist of for a file to be delivered from it
  datatype Evidence = Evidence(sealedKey: seq<byte>, signature: seq<byte>, keyAndCount: seq<byte>, name: Piece,
                               chunks: seq<Piece>)
  {
    function Frames(): seq<byte> {
      Framed([sealedKey, signature]) + PieceFrames(name) + AllFrames(chunks)
    }

    // The key frames decrypt and verify, and all the rest opens under that
    // key: the name, and as many chunks as were announced, numbered in order.
    ghost predicate Proves(suite: Suite, sender: PublicKey, receiver: PrivateKey) {
      && |sealedKey| <= 0xFFFF_FFFF && |signature| <= 0xFFFF_FFFF
      && suite.decryptOAEP(receiver, sealedKey) == Some(keyAndCount)
      && suite.verifyPSS(sender, suite.hash(keyAndCount), signature)
      && |keyAndCount| >= 32 + 2
      && Opens(suite, keyAndCount[..32], name)
      && HoldChunks(suite, keyAndCount[..32], chunks, 0, ByteToUint16(keyAndCount[32..]))
    }
  }

  // The receiver delivers a file from a stream exactly when the stream begins
  // with frames that prove it; the file is what these frames hold, and the
  // reader stops right behind them.
  lemma DeliveredExactly(suite: Suite, sender: PublicKey, receiver: PrivateKey, faults: nat -> Option<nat>,
                         s: seq<byte>, name: seq<byte>, content: seq<byte>, rest: seq<byte>)
    ensures var d := ReceiveFile(suite, sender, receiver, faults, s);
      d.progress.err == None && d.header.fileName == name && d.progress.temp == content && d.progress.rest == rest
      <==>
      exists e: Evidence :: e.Proves(suite, sender, receiver) && Writable(faults, 0, |e.chunks|)
        && s == e.Frames() + rest && e.name.plain == name && AllData(e.chunks) == content
  {
    var d := ReceiveFile(suite, sender, receiver, faults, s);
    if d.progress.err == None && d.header.fileName == name && d.progress.temp == content && d.progress.rest == rest {
      var e := EvidenceOf(suite, sender, receiver, faults, s);
      assert e.Proves(suite, sender, receiver);
    }
    forall e: Evidence | e.Proves(suite, sender, receiver) && Writable(faults, 0, |e.chunks|)
      && s == e.Frames() + rest && e.name.plain == name && AllData(e.chunks) == content
      ensures d.progress.err == None && d.header.fileName == name && d.progress.temp == content
        && d.progress.rest == rest
    {
      EvidenceAccepted(suite, sender, receiver, faults, e, rest);
    }
  }

  lemma EvidenceOf(suite: Suite, sender: PublicKey, receiver: PrivateKey, faults: nat -> Option<nat>, s: seq<byte>)
    returns (e: Evidence)
    requires ReceiveFile(suite, sender, receiver, faults, s).progress.err == None
    ensures var d := ReceiveFile(suite, sender, receiver, faults, s);
      && e.Proves(suite, sender, receiver) && Writable(faults, 0, |e.chunks|)
      && s == e.Frames() + d.progress.rest && e.name.plain == d.header.fileName && AllData(e.chunks) == d.progress.temp
  {
    hide ReadFramesOf;
    hide ReceiveSealed;
    hide ReceiveChunks;
    hide Framed;
    hide PieceFrames;
    hide DecryptVerifyMsg;
    var two := ReadFramesOf(s, 2);
    var sealedKey, signature := two.result.value[0], two.result.value[1];
    var frames: seq<seq<byte>> := [sealedKey, signature];
    assert two.result.value == frames;
    ReadFramesExact(s, frames, two.rest);
    assert |frames[0]| <= 0xFFFF_FFFF && |frames[1]| <= 0xFFFF_FFFF;
    var plain := DecryptVerifyMsg(suite, sealedKey, signature, sender, receiver).value;
    VerifiedExactly(suite, sealedKey, signature, sender, receiver, plain);
    var key := plain[..32];
    var named := ReceiveSealed(suite, key, two.rest);
    SealedExact(suite, key, two.rest, named.result.value, named.rest);
    var name: Piece :| Opens(suite, key, name) && name.plain == named.result.value
      && two.rest == PieceFrames(name) + named.rest;
    var chunks := ChunksExact(suite, key, ByteToUint16(plain[32..]), faults, 0, 0, [], named.rest);
    e := Evidence(sealedKey, signature, plain, name, chunks);
  }

  lemma EvidenceAccepted(suite: Suite, sender: PublicKey, receiver: PrivateKey, faults: nat -> Option<nat>,
                         e: Evidence, rest: seq<byte>)
    requires e.Proves(suite, sender, receiver) && Writable(faults, 0, |e.chunks|)
    ensures var d := ReceiveFile(suite, sender, receiver, faults, e.Frames() + rest);
      && d.progress.err == None && d.header.fileName == e.name.plain
      && d.progress.temp == AllData(e.chunks) && d.progress.rest == rest
  {
    hide ReadFramesOf;
    hide ReceiveSealed;
    hide ReceiveChunks;
    hide Framed;
    hide PieceFrames;
    hide DecryptVerifyMsg;
    VerifiedExactly(suite, e.sealedKey, e.signature, sender, receiver, e.keyAndCount);
    var s2 := AllFrames(e.chunks) + rest;
    var s1 := PieceFrames(e.name) + s2;
    var s := e.Frames() + rest;
    assert s == Framed([e.sealedKey, e.signature]) + s1;
    ReadFramesExact(s, [e.sealedKey, e.signature], s1);
    SealedExact(suite, e.keyAndCount[..32], s1, e.name.plain, s2);
    ChunksAccepted(suite, e.keyAndCount[..32], |e.chunks|, faults, 0, 0, [], e.chunks, rest);
  }
}
