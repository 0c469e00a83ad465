// Big-endian integers and the range checks in front of them. A size fits if it
// is at most 0xFFFF_FFFF, a chunk number if it is at most 0xFFFF.
module BigEndian {
  import opened Base

  // The lowest `width` bytes of a number, most significant first
  function Bytes(n: nat, width: nat): (b: seq<byte>)
    ensures |b| == width
    decreases width, n
  {
    if width == 0 then [] else Bytes(n / 256, width - 1) + [n % 256]
  }

  // PutUint32 of uint32(n)
  function Uint32ToByte(n: nat): (b: seq<byte>)
    ensures |b| == 4
  {
    Bytes(n, 4)
  }

  function ByteToUint32(b: seq<byte>): (n: nat)
    requires |b| == 4
    ensures n <= 0xFFFF_FFFF
  {
    b[0] as int * 16777216 + b[1] as int * 65536 + b[2] as int * 256 + b[3]
  }

  // PutUint16 of uint16(n)
  function Uint16ToByte(n: nat): (b: seq<byte>)
    ensures |b| == 2
  {
    Bytes(n, 2)
  }

  function ByteToUint16(b: seq<byte>): (n: nat)
    requires |b| >= 2
    ensures n <= 0xFFFF
  {
    b[0] as int * 256 + b[1]
  }

  // Encoding and decoding 32 bits are inverse bijections.
  lemma Uint32RoundTrip(n: nat, b: seq<byte>)
    requires n <= 0xFFFF_FFFF && |b| == 4
    ensures Uint32ToByte(n) == b <==> n == ByteToUint32(b)
    ensures ByteToUint32(Uint32ToByte(n)) == n
    ensures Uint32ToByte(ByteToUint32(b)) == b
  {
    DecodeEncode(n);
    EncodeDecode(b);
  }

  // The most significant byte comes first.
  lemma PlaceValues(n: nat)
    requires n <= 0xFFFF_FFFF
    ensures var b := Uint32ToByte(n);
      b[0] as int * 0x100_0000 + b[1] as int * 0x1_0000 + b[2] as int * 0x100 + b[3] == n
    ensures n <= 0xFFFF ==> var b := Uint16ToByte(n); b[0] as int * 0x100 + b[1] == n
  {
    DecodeEncode(n);
    if n <= 0xFFFF {
      TwoBytes(n);
    }
    hide Bytes;
  }

  lemma DecodeEncode(n: nat)
    requires n <= 0xFFFF_FFFF
    ensures ByteToUint32(Uint32ToByte(n)) == n
  {
    var l := n / 256;
    var m := l / 256;
    var h := m / 256;
    assert Bytes(m, 2) == Bytes(h, 1) + [m % 256] && Bytes(h, 1) == [] + [h % 256];
    assert Bytes(n, 4) == Bytes(l, 3) + [n % 256] && Bytes(l, 3) == Bytes(m, 2) + [l % 256];
    assert h % 256 == h;
    hide Bytes;
    assert Uint32ToByte(n) == [h, m % 256, l % 256, n % 256];
  }

  lemma EncodeDecode(b: seq<byte>)
    requires |b| == 4
    ensures Uint32ToByte(ByteToUint32(b)) == b
  {
    var m := b[0] as int * 256 + b[1];
    var l := m * 256 + b[2];
    var n := ByteToUint32(b);
    assert n == l * 256 + b[3];
    Divide256(l, b[3]);
    Divide256(m, b[2]);
    Divide256(b[0], b[1]);
    Divide256(0, b[0]);
    assert Bytes(m, 2) == Bytes(b[0], 1) + [b[1]] && Bytes(b[0], 1) == [] + [b[0]];
    assert Bytes(n, 4) == Bytes(l, 3) + [b[3]] && Bytes(l, 3) == Bytes(m, 2) + [b[2]];
    hide Bytes;
  }

  lemma Divide256(h: nat, l: nat)
    requires l < 256
    ensures (h * 256 + l) / 256 == h && (h * 256 + l) % 256 == l
  {
  }

  lemma TwoBytes(n: nat)
    ensures Uint16ToByte(n) == [n / 256 % 256, n % 256]
  {
    assert Bytes(n, 2) == Bytes(n / 256, 1) + [n % 256] && Bytes(n / 256, 1) == [] + [n / 256 % 256];
  }

  lemma LowBytes(n: nat)
    ensures var r := Wrap16(n); r / 256 == n / 256 % 256 && r % 256 == n % 256 && r / 256 < 256
  {
    var q, r := n / 65536, n % 65536;
    Divide256(q * 256 + r / 256, r % 256);
    Divide256(q, r / 256);
  }

  // Encoding a 16-bit number and reading it back, also in front of more bytes,
  // keeps exactly its low 16 bits.
  lemma Uint16RoundTrip(n: nat, rest: seq<byte>)
    ensures ByteToUint16(Uint16ToByte(n) + rest) == Wrap16(n)
  {
    TwoBytes(n);
    LowBytes(n);
    hide Bytes;
    var b := Uint16ToByte(n) + rest;
    assert b[0] == n / 256 % 256 && b[1] == n % 256;
  }

  // Unsigned addition wraps: the machine's value is the true one modulo 2^16 or
  // 2^64, so wrapping at every step or once at the end is the same.
  function Wrap16(n: nat): (r: nat)
    ensures r <= 0xFFFF
  {
    n % 65536
  }

  function Wrap64(n: nat): (r: nat)
    ensures r < 0x1_0000_0000_0000_0000
  {
    n % 0x1_0000_0000_0000_0000
  }

  lemma WrapSum(a: nat, b: nat)
    ensures Wrap16(Wrap16(a) + b) == Wrap16(a + b)
    ensures Wrap64(Wrap64(a) + b) == Wrap64(a + b)
    ensures a <= 0xFFFF ==> Wrap16(a) == a
    ensures a < 0x1_0000_0000_0000_0000 ==> Wrap64(a) == a
  {
    Wrap16Sum(a, b);
    Wrap64Sum(a, b);
  }

  lemma Wrap16Sum(a: nat, b: nat)
    ensures Wrap16(Wrap16(a) + b) == Wrap16(a + b)
  {
    assert a == Wrap16(a) + 65536 * (a / 65536);
  }

  lemma Wrap64Sum(a: nat, b: nat)
    ensures Wrap64(Wrap64(a) + b) == Wrap64(a + b)
  {
    assert a == Wrap64(a) + 0x1_0000_0000_0000_0000 * (a / 0x1_0000_0000_0000_0000);
  }

  // A counter that wraps at 16 bits is encoded like one that does not.
  lemma Uint16Wrap(n: nat)
    ensures Uint16ToByte(Wrap16(n)) == Uint16ToByte(n)
  {
    TwoBytes(n);
    TwoBytes(Wrap16(n));
    LowBytes(n);
  }

  lemma Uint16Bijection(b: seq<byte>)
    requires |b| == 2
    ensures Uint16ToByte(ByteToUint16(b)) == b
  {
    TwoBytes(ByteToUint16(b));
    Divide256(b[0], b[1]);
  }

  // IntToUint32 and Int64ToUint32
  function IntToUint32(n: int): (r: Result<nat, Failure>)
    ensures r.Ok? <==> 0 <= n < 0x1_0000_0000
    ensures r.Ok? ==> r.value == n && ByteToUint32(Uint32ToByte(n)) == n
    ensures r.Err? ==> r.error == SizeOverflow
  {
    if n < 0 || n > 0xFFFF_FFFF then Err(SizeOverflow) else DecodeEncode(n); Ok(n)
  }
}
