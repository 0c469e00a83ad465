// Readers, writers and files as byte streams.
module Streams {
  import opened Tables
  import opened Base

  // What a read leaves behind: its result and the bytes still unread
  datatype Got<+T> = Got(result: Result<T, Failure>, rest: seq<byte>)

  // io.ReadFull of n bytes: all of them, EOF when there were none at all,
  // UnexpectedEOF when the stream ended in between. Reading nothing succeeds.
  function ReadN(s: seq<byte>, n: nat): Got<seq<byte>> {
    if n <= |s| then Got(Ok(s[..n]), s[n..])
    else if s == [] then Got(Err(EOF), [])
    else Got(Err(UnexpectedEOF), [])
  }

  // How much of a write of len bytes is taken when its outcome is `fault`
  function Accepted(fault: Option<nat>, len: nat): nat {
    match fault
    case None => len
    case Some(k) => Min(k, len)
  }

  // `after` extends `before` by some prefix of `planned`.
  ghost predicate Grew(before: seq<byte>, after: seq<byte>, planned: seq<byte>) {
    before <= after <= before + planned
  }

  lemma GrewThen(before: seq<byte>, done: seq<byte>, after: seq<byte>, next: seq<byte>, more: seq<byte>)
    requires Grew(before + done, after, next)
    ensures Grew(before, after, done + next + more)
  {
    assert before + (done + next + more) == (before + done) + next + more;
  }

  lemma GrewWithin(before: seq<byte>, done: seq<byte>, after: seq<byte>, next: seq<byte>, more: seq<byte>,
                   whole: seq<byte>)
    requires Grew(before + done, after, next) && whole == done + next + more
    ensures Grew(before, after, whole)
  {
    GrewThen(before, done, after, next, more);
  }

  // A connection or an open file: bytes that can still be read, and the bytes
  // written so far. The outcome of every write is fixed by `faults`: the i-th
  // call takes everything, or fails after taking at most k bytes.
  class Stream {
    var unread: seq<byte>
    var written: seq<byte>
    var writes: nat
    var open: bool
    const faults: nat -> Option<nat>
    const closeFails: bool

    constructor (unread: seq<byte>, faults: nat -> Option<nat>, closeFails: bool)
      ensures this.unread == unread && written == [] && writes == 0 && open
      ensures this.faults == faults && this.closeFails == closeFails
    {
      this.unread, this.written, this.writes, this.open := unread, [], 0, true;
      this.faults, this.closeFails := faults, closeFails;
    }

    // Fills the first n bytes of the buffer; a failing read may leave some of
    // the new bytes in it.
    method ReadFull(buffer: array<byte>, n: nat) returns (read: nat, err: Option<Failure>)
      requires n <= buffer.Length
      modifies this`unread, buffer
      ensures read == Min(n, |old(unread)|)
      ensures buffer[..read] == old(unread)[..read] && buffer[read..] == old(buffer[read..])
      ensures unread == ReadN(old(unread), n).rest
      ensures match ReadN(old(unread), n).result
              case Ok(b) => err == None && b == buffer[..n]
              case Err(e) => err == Some(e)
    {
      read := Min(n, |unread|);
      forall i | 0 <= i < read {
        buffer[i] := unread[i];
      }
      err := if read == n then None else if read == 0 then Some(EOF) else Some(UnexpectedEOF);
      unread := unread[read..];
    }

    method Write(b: seq<byte>) returns (n: nat, err: Option<Failure>)
      modifies this`written, this`writes
      ensures writes == old(writes) + 1
      ensures n == Accepted(faults(old(writes)), |b|)
      ensures written == old(written) + b[..n]
      ensures err == if faults(old(writes)) == None then None else Some(WriteFailed)
    {
      var fault := faults(writes);
      n := Accepted(fault, |b|);
      written := written + b[..n];
      writes := writes + 1;
      err := if fault == None then None else Some(WriteFailed);
    }

    method Close() returns (err: Option<Failure>)
      modifies this`open
      ensures !open
      ensures err == if closeFails || !old(open) then Some(CloseFailed) else None
    {
      err := if closeFails || !open then Some(CloseFailed) else None;
      open := false;
    }
  }
}
