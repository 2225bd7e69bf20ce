/**
  Little-endian numbers inside a block of bytes, as the on-disk structures store them
  (kernel/fs.h, mkfs/mkfs.c: xshort, xint).
 */
module Words {
  import opened Prelude

  const USHORT: nat := 0x1_0000

  /** The bytes of a 32-bit and of a 16-bit number, lowest first. */
  function Bytes4(v: nat): (r: seq<byte>)
    ensures |r| == 4
  {
    [(v % 256) as byte, (v / 256 % 256) as byte, (v / 65536 % 256) as byte, (v / 16777216 % 256) as byte]
  }

  function Bytes2(v: nat): (r: seq<byte>)
    ensures |r| == 2
  {
    [(v % 256) as byte, (v / 256 % 256) as byte]
  }

  function Word(s: seq<byte>, o: nat): nat
    requires o + 4 <= |s|
  {
    s[o] as nat + 256 * s[o + 1] as nat + 65536 * s[o + 2] as nat + 16777216 * s[o + 3] as nat
  }

  function Half(s: seq<byte>, o: nat): nat
    requires o + 2 <= |s|
  {
    s[o] as nat + 256 * s[o + 1] as nat
  }

  /** s with part in place of the bytes from o on. */
  function Patched(s: seq<byte>, o: nat, part: seq<byte>): (r: seq<byte>)
    requires o + |part| <= |s|
    ensures |r| == |s|
  {
    s[..o] + part + s[o + |part|..]
  }

  function PutWord(s: seq<byte>, o: nat, v: nat): (r: seq<byte>)
    requires o + 4 <= |s|
    ensures |r| == |s|
  {
    Patched(s, o, Bytes4(v))
  }

  /** A stored number is read back modulo its width. */
  lemma WordBack(s: seq<byte>, o: nat, v: nat)
    requires o + 4 <= |s|
    ensures Word(PutWord(s, o, v), o) == v % UINT
  {
    var r := PutWord(s, o, v);
    assert r[o] == Bytes4(v)[0] && r[o + 1] == Bytes4(v)[1] && r[o + 2] == Bytes4(v)[2] && r[o + 3] == Bytes4(v)[3];
    FourDigits(v);
  }

  lemma FourDigits(v: nat)
    ensures v % 256 + 256 * (v / 256 % 256) + 65536 * (v / 65536 % 256) + 16777216 * (v / 16777216 % 256) == v % UINT
  {
    var a, b, c := v / 256, v / 65536, v / 16777216;
    assert b == a / 256 && c == b / 256;
    assert v == 256 * a + v % 256 && a == 256 * b + a % 256 && b == 256 * c + b % 256;
    var d := c / 256;
    assert c == 256 * d + c % 256;
    var low := v % 256 + 256 * (a % 256) + 65536 * (b % 256) + 16777216 * (c % 256);
    assert v == UINT * d + low && low < UINT;
  }

  /** Other bytes, and so other numbers, stay. */
  lemma WordElsewhere(s: seq<byte>, o: nat, part: seq<byte>, p: nat)
    requires o + |part| <= |s| && p + 4 <= |s| && (p + 4 <= o || o + |part| <= p)
    ensures Word(Patched(s, o, part), p) == Word(s, p)
  {
    var r := Patched(s, o, part);
    assert r[p] == s[p] && r[p + 1] == s[p + 1] && r[p + 2] == s[p + 2] && r[p + 3] == s[p + 3];
  }
}
