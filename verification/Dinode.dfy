/**
  The bytes of on-disk inodes and of the free bitmap (kernel/fs.h: struct dinode, IBLOCK;
  mkfs/mkfs.c: winode, rinode, balloc).
 */
module DiskInode {
  import opened Prelude
  import opened Words
  import opened FsState

  const T_DIR: nat := 1
  const T_FILE: nat := 2

  /** Bytes per inode. */
  const DINODE: nat := 64

  datatype Dinode = Dinode(kind: nat, major: nat, minor: nat, nlink: nat, size: nat, addrs: seq<nat>)

  /** Every field is within its width. */
  predicate Fits(d: Dinode) {
    && d.kind < USHORT && d.major < USHORT && d.minor < USHORT && d.nlink < USHORT && d.size < UINT
    && |d.addrs| == NDIRECT + 1 && forall k | 0 <= k < |d.addrs| :: d.addrs[k] < UINT
  }

  function Encode(d: Dinode): (r: seq<byte>)
    requires |d.addrs| == NDIRECT + 1
    ensures |r| == DINODE
  {
    Bytes2(d.kind) + Bytes2(d.major) + Bytes2(d.minor) + Bytes2(d.nlink) + Bytes4(d.size) + Numbers(d.addrs)
  }

  function Numbers(addrs: seq<nat>): (r: seq<byte>)
    ensures |r| == 4 * |addrs|
  {
    seq(4 * |addrs|, i requires 0 <= i < 4 * |addrs| => Bytes4(addrs[i / 4])[i % 4])
  }

  /** The inode stored at offset o of a block. */
  function Decode(s: seq<byte>, o: nat): Dinode
    requires o + DINODE <= |s|
  {
    Dinode(Half(s, o), Half(s, o + 2), Half(s, o + 4), Half(s, o + 6), Word(s, o + 8),
           seq(NDIRECT + 1, k requires 0 <= k <= NDIRECT => Word(s, o + 12 + 4 * k)))
  }

  lemma HalfBytes(v: nat)
    requires v < USHORT
    ensures Half(Bytes2(v), 0) == v
  {
  }

  lemma WordBytes(v: nat)
    requires v < UINT
    ensures Word(Bytes4(v), 0) == v
  {
    FourDigits(v);
  }

  /** What is decoded is what was encoded. */
  lemma RoundTrip(d: Dinode)
    requires Fits(d)
    ensures Decode(Encode(d), 0) == d
  {
    hide Half, Word, Bytes2, Bytes4, Numbers;
    var r := Encode(d);
    HalfBytes(d.kind);
    HalfBytes(d.major);
    HalfBytes(d.minor);
    HalfBytes(d.nlink);
    WordBytes(d.size);
    HalfAt(r, 0, Bytes2(d.kind));
    HalfAt(r, 2, Bytes2(d.major));
    HalfAt(r, 4, Bytes2(d.minor));
    HalfAt(r, 6, Bytes2(d.nlink));
    WordAt(r, 8, Bytes4(d.size));
    forall k | 0 <= k <= NDIRECT ensures Word(r, 12 + 4 * k) == d.addrs[k] {
      WordBytes(d.addrs[k]);
      NumberAt(d.addrs, k);
      assert r[12 + 4 * k..12 + 4 * k + 4] == Numbers(d.addrs)[4 * k..4 * k + 4];
      WordAt(r, 12 + 4 * k, Bytes4(d.addrs[k]));
    }
    assert Decode(r, 0).addrs == d.addrs;
  }

  lemma NumberAt(addrs: seq<nat>, k: nat)
    requires k < |addrs|
    ensures Numbers(addrs)[4 * k..4 * k + 4] == Bytes4(addrs[k])
  {
    hide Bytes4;
    var r := Numbers(addrs);
    assert r[4 * k] == Bytes4(addrs[k])[0] && r[4 * k + 1] == Bytes4(addrs[k])[1];
    assert r[4 * k + 2] == Bytes4(addrs[k])[2] && r[4 * k + 3] == Bytes4(addrs[k])[3];
  }

  lemma HalfAt(s: seq<byte>, o: nat, part: seq<byte>)
    requires |part| == 2 && o + 2 <= |s| && s[o..o + 2] == part
    ensures Half(s, o) == Half(part, 0)
  {
    assert s[o] == part[0] && s[o + 1] == part[1];
  }

  lemma WordAt(s: seq<byte>, o: nat, part: seq<byte>)
    requires |part| == 4 && o + 4 <= |s| && s[o..o + 4] == part
    ensures Word(s, o) == Word(part, 0)
  {
    assert s[o] == part[0] && s[o + 1] == part[1] && s[o + 2] == part[2] && s[o + 3] == part[3];
  }

  /** Decoding looks at 64 bytes only. */
  lemma DecodeIn(s: seq<byte>, o: nat)
    requires o + DINODE <= |s|
    ensures Decode(s, o) == Decode(s[o..o + DINODE], 0)
  {
    var t := s[o..o + DINODE];
    forall k | 0 <= k <= NDIRECT ensures Word(s, o + 12 + 4 * k) == Word(t, 12 + 4 * k) {
    }
    assert Decode(s, o).addrs == Decode(t, 0).addrs;
  }

  /** A stored inode is read back, and the other inodes of the block stay. */
  lemma StoredInode(s: Sector, i: nat, d: Dinode, j: nat)
    requires Fits(d) && i < IPB && j < IPB
    ensures Decode(Patched(s, i * DINODE, Encode(d)), j * DINODE) == if i == j then d else Decode(s, j * DINODE)
  {
    hide Encode, Decode;
    var r := Patched(s, i * DINODE, Encode(d));
    if i == j {
      assert r[i * DINODE..i * DINODE + DINODE] == Encode(d);
      DecodeIn(r, i * DINODE);
      RoundTrip(d);
    } else {
      assert r[j * DINODE..j * DINODE + DINODE] == s[j * DINODE..j * DINODE + DINODE];
      DecodeIn(r, j * DINODE);
      DecodeIn(s, j * DINODE);
    }
  }

  // ---------------------------------------------------------------------
  // The free bitmap

  function Pow2(k: nat): (p: nat)
    ensures p > 0
  {
    if k == 0 then 1 else 2 * Pow2(k - 1)
  }

  /** x | 1 << k */
  function SetBit(x: byte, k: nat): byte
    requires k < 8
  {
    BitBound(x, k);
    if x as nat / Pow2(k) % 2 == 1 then x else (x as nat + Pow2(k)) as byte
  }

  lemma BitBound(x: byte, k: nat)
    requires k < 8
    ensures x as nat / Pow2(k) % 2 == 0 ==> x as nat + Pow2(k) < 256
  {
    hide Pow2;
    Powers();
    if k == 0 {
      HighBit(x as nat, 1);
    } else if k == 1 {
      HighBit(x as nat, 2);
    } else if k == 2 {
      HighBit(x as nat, 4);
    } else if k == 3 {
      HighBit(x as nat, 8);
    } else if k == 4 {
      HighBit(x as nat, 16);
    } else if k == 5 {
      HighBit(x as nat, 32);
    } else if k == 6 {
      HighBit(x as nat, 64);
    } else {
      HighBit(x as nat, 128);
    }
  }

  /** The largest number without this bit still has room for it. */
  lemma HighBit(x: nat, p: nat)
    requires p in {1, 2, 4, 8, 16, 32, 64, 128} && x < 256
    ensures x / p % 2 == 0 ==> x + p < 256
  {
    var q := x / p;
    assert x == q * p + x % p;
    if q % 2 == 0 {
      assert q * p == q / 2 * (2 * p);
      assert (256 / (2 * p)) * (2 * p) == 256;
    }
  }

  lemma Powers()
    ensures Pow2(0) == 1 && Pow2(1) == 2 && Pow2(2) == 4 && Pow2(3) == 8 && Pow2(4) == 16
    ensures Pow2(5) == 32 && Pow2(6) == 64 && Pow2(7) == 128
  {
    assert Pow2(3) == 8;
    assert Pow2(5) == 32;
  }

  predicate BitAt(s: Sector, b: nat)
    requires b < 8 * BSIZE
  {
    s[b / 8] as nat / Pow2(b % 8) % 2 == 1
  }

  /** The byte whose lowest n bits are set. */
  function Mask(n: int): byte {
    if n <= 0 then 0 else if n == 1 then 1 else if n == 2 then 3 else if n == 3 then 7 else if n == 4 then 15
    else if n == 5 then 31 else if n == 6 then 63 else if n == 7 then 127 else 255
  }

  lemma MaskMore(n: nat)
    requires n < 8
    ensures SetBit(Mask(n), n) == Mask(n + 1)
  {
    Powers();
    match n
    case 0 => case 1 => case 2 => case 3 => case 4 => case 5 => case 6 => case _ =>
  }

  lemma MaskBit(n: int, k: nat)
    requires k < 8
    ensures Mask(n) as nat / Pow2(k) % 2 == 1 <==> k < n
  {
    Powers();
    match k
    case 0 => case 1 => case 2 => case 3 => case 4 => case 5 => case 6 => case _ =>
  }

  /** The block has exactly its first n bits set. */
  predicate FirstBits(s: Sector, n: nat) {
    forall j | 0 <= j < BSIZE :: s[j] == Mask(n - 8 * j)
  }

  lemma FirstBitsAt(s: Sector, n: nat, b: nat)
    requires FirstBits(s, n) && b < 8 * BSIZE
    ensures BitAt(s, b) <==> b < n
  {
    MaskBit(n - 8 * (b / 8), b % 8);
  }
}
