/**
  The on-disk structures behind inode contents (kernel/fs.c, kernel/fs.h): the free
  bitmap, inodes with direct and indirect blocks, and who owns which block.

  A block is used either for bytes or as an indirect block of 256 block numbers, so its
  contents appear twice; zeroing a block writes both.  `owner` is ghost.
 */
module FsState {
  import opened Prelude

  const NDIRECT: nat := 12
  const NINDIRECT: nat := 256
  const MAXFILE: nat := NDIRECT + NINDIRECT
  const IPB: nat := 16         // inodes per block

  /** The one place a used block belongs to. */
  datatype Owner = Meta | DataOf(inum: nat, bn: nat) | IndirectOf(inum: nat)

  datatype Inode = Inode(size: nat, addrs: seq<nat>)

  datatype Fs = Fs(
    size: nat,
    bitmap: seq<bool>,
    blocks: map<nat, seq<byte>>,
    ptrs: map<nat, seq<nat>>,
    inodes: map<nat, Inode>,
    ghost owner: map<nat, Owner>)

  function NoPtrs(): seq<nat> { seq(NINDIRECT, _ => 0) }

  ghost predicate Shape(s: Fs) {
    && |s.bitmap| == s.size
    && (forall b: nat | b < s.size :: b in s.blocks && |s.blocks[b]| == BSIZE)
    && (forall b: nat | b < s.size :: b in s.ptrs && |s.ptrs[b]| == NINDIRECT)
    && (forall i | i in s.inodes :: |s.inodes[i].addrs| == NDIRECT + 1 && s.inodes[i].addrs[NDIRECT] < s.size)
    && 0 < s.size
  }

  /** The block that holds block number bn of inode i, or 0. */
  function Addr(s: Fs, i: nat, bn: nat): nat
    requires Shape(s) && i in s.inodes && bn < MAXFILE
  {
    if bn < NDIRECT then s.inodes[i].addrs[bn]
    else if s.inodes[i].addrs[NDIRECT] == 0 then 0
    else s.ptrs[s.inodes[i].addrs[NDIRECT]][bn - NDIRECT]
  }

  /** Every block number held by an inode names a used block that belongs to exactly that place. */
  ghost predicate Held(s: Fs)
    requires Shape(s)
  {
    && (forall i, bn: nat | i in s.inodes && bn < MAXFILE && Addr(s, i, bn) != 0 ::
          Addr(s, i, bn) in s.owner && s.owner[Addr(s, i, bn)] == DataOf(i, bn))
    && (forall i | i in s.inodes && s.inodes[i].addrs[NDIRECT] != 0 ::
          s.inodes[i].addrs[NDIRECT] in s.owner && s.owner[s.inodes[i].addrs[NDIRECT]] == IndirectOf(i))
  }

  /** Every owned block is where its owner says. */
  ghost predicate Placed(s: Fs)
    requires Shape(s)
  {
    forall b | b in s.owner ::
      match s.owner[b]
      case Meta => true
      case DataOf(i, bn) => i in s.inodes && bn < MAXFILE && Addr(s, i, bn) == b && b != 0
      case IndirectOf(i) => i in s.inodes && s.inodes[i].addrs[NDIRECT] == b && b != 0
  }

  /** The bitmap marks exactly the owned blocks, and block 0 is never free. */
  ghost predicate Marked(s: Fs)
    requires Shape(s)
  {
    && (forall b | b in s.owner :: b < s.size)
    && (forall b: nat | b < s.size :: s.bitmap[b] <==> b in s.owner)
    && 0 in s.owner && s.owner[0] == Meta
  }

  ghost predicate Inv(s: Fs) {
    Shape(s) && Held(s) && Placed(s) && Marked(s)
  }

  /** Every block below the size of inode i is mapped. */
  ghost predicate Mapped(s: Fs, i: nat)
    requires Shape(s) && i in s.inodes
  {
    && s.inodes[i].size <= MAXFILE * BSIZE
    && forall bn: nat | bn < MAXFILE && bn * BSIZE < s.inodes[i].size :: Addr(s, i, bn) != 0
  }

  /** No block at or past the size of inode i is mapped. */
  ghost predicate Tight(s: Fs, i: nat)
    requires Shape(s) && i in s.inodes
  {
    forall bn: nat | bn < MAXFILE && bn * BSIZE >= s.inodes[i].size :: Addr(s, i, bn) == 0
  }

  lemma AddrBound(s: Fs, i: nat, bn: nat)
    requires Inv(s) && i in s.inodes && bn < MAXFILE
    ensures Addr(s, i, bn) < s.size
  {
    if Addr(s, i, bn) != 0 { assert s.owner[Addr(s, i, bn)] == DataOf(i, bn); }
  }

  /** Byte k of inode i; zero where no block is mapped. */
  ghost function ByteAt(s: Fs, i: nat, k: nat): byte
    requires Shape(s) && i in s.inodes && k < MAXFILE * BSIZE
  {
    var a := Addr(s, i, k / BSIZE);
    if a != 0 && a < s.size then s.blocks[a][k % BSIZE] else 0
  }

  /** The contents of inode i: a plain byte sequence of its size. */
  ghost function Contents(s: Fs, i: nat): (c: seq<byte>)
    requires Shape(s) && i in s.inodes && s.inodes[i].size <= MAXFILE * BSIZE
    ensures |c| == s.inodes[i].size
  {
    seq(s.inodes[i].size, k requires 0 <= k < s.inodes[i].size => ByteAt(s, i, k))
  }

  // ---------------------------------------------------------------------
  // Taking a free block into use

  /** balloc: block b marked used and zeroed. */
  function Taken(s: Fs, b: nat): Fs
    requires b < |s.bitmap|
  {
    s.(bitmap := s.bitmap[b := true], blocks := s.blocks[b := Zeros()], ptrs := s.ptrs[b := NoPtrs()])
  }

  function SetAddr(s: Fs, i: nat, k: nat, b: nat): Fs
    requires i in s.inodes && k < |s.inodes[i].addrs|
  {
    s.(inodes := s.inodes[i := s.inodes[i].(addrs := s.inodes[i].addrs[k := b])])
  }

  function SetPtr(s: Fs, p: nat, j: nat, b: nat): Fs
    requires p in s.ptrs && j < |s.ptrs[p]|
  {
    var row: seq<nat> := s.ptrs[p][j := b];
    s.(ptrs := s.ptrs[p := row])
  }

  /** A free block becomes data block bn of inode i. */
  ghost function TakenDirect(s: Fs, i: nat, bn: nat, b: nat): Fs
    requires b < |s.bitmap| && i in s.inodes && bn < |s.inodes[i].addrs|
  {
    SetAddr(Taken(s, b), i, bn, b).(owner := s.owner[b := DataOf(i, bn)])
  }

  ghost function TakenIndirect(s: Fs, i: nat, b: nat): Fs
    requires b < |s.bitmap| && i in s.inodes && NDIRECT < |s.inodes[i].addrs|
  {
    SetAddr(Taken(s, b), i, NDIRECT, b).(owner := s.owner[b := IndirectOf(i)])
  }

  ghost function TakenEntry(s: Fs, i: nat, j: nat, b: nat): Fs
    requires Shape(s) && b < s.size && i in s.inodes && j < NINDIRECT
  {
    SetPtr(Taken(s, b), s.inodes[i].addrs[NDIRECT], j, b).(owner := s.owner[b := DataOf(i, NDIRECT + j)])
  }

  /** Every block number is as before, except that block bn of inode i is now b. */
  ghost predicate OneAddr(s: Fs, s': Fs, i: nat, bn: nat, b: nat)
    requires Shape(s) && Shape(s')
  {
    && s'.inodes.Keys == s.inodes.Keys && s'.size == s.size
    && (forall x | x in s.inodes :: s'.inodes[x].size == s.inodes[x].size)
    && (forall x, y: nat | x in s.inodes && y < MAXFILE :: Addr(s', x, y) == if x == i && y == bn then b
      else Addr(s, x, y))
  }

  /** A free block is not mentioned anywhere. */
  lemma FreeUnheld(s: Fs, b: nat)
    requires Inv(s) && b < s.size && !s.bitmap[b]
    ensures b !in s.owner && b != 0
    ensures forall i, bn: nat | i in s.inodes && bn < MAXFILE :: Addr(s, i, bn) != b
    ensures forall i | i in s.inodes :: s.inodes[i].addrs[NDIRECT] != b
  {
  }

  ghost predicate SameIndirect(s: Fs, s': Fs)
    requires Shape(s) && Shape(s') && s'.inodes.Keys == s.inodes.Keys
  {
    forall x | x in s.inodes :: s'.inodes[x].addrs[NDIRECT] == s.inodes[x].addrs[NDIRECT]
  }

  /** Giving a fresh block to an empty place keeps the ownership invariant. */
  lemma AssignKeeps(s: Fs, s': Fs, i: nat, bn: nat, b: nat)
    requires Inv(s) && Shape(s') && i in s.inodes && bn < MAXFILE && b < s.size && !s.bitmap[b]
    requires OneAddr(s, s', i, bn, b) && SameIndirect(s, s') && Addr(s, i, bn) == 0
    requires s'.owner == s.owner[b := DataOf(i, bn)] && s'.bitmap == s.bitmap[b := true]
    ensures Inv(s')
  {
    FreeUnheld(s, b);
    hide Addr;
    forall x, y: nat | x in s'.inodes && y < MAXFILE && Addr(s', x, y) != 0
      ensures Addr(s', x, y) in s'.owner && s'.owner[Addr(s', x, y)] == DataOf(x, y)
    {
      if !(x == i && y == bn) { assert Addr(s', x, y) == Addr(s, x, y); }
    }
  }

  lemma TakenDirectKeeps(s: Fs, i: nat, bn: nat, b: nat)
    requires Inv(s) && i in s.inodes && bn < NDIRECT && Addr(s, i, bn) == 0 && b < s.size && !s.bitmap[b]
    ensures var s' := TakenDirect(s, i, bn, b); Inv(s') && OneAddr(s, s', i, bn, b) && SameIndirect(s, s')
  {
    hide Held, Placed;
    FreeUnheld(s, b);
    var s' := TakenDirect(s, i, bn, b);
    assert Shape(s');
    AssignKeeps(s, s', i, bn, b);
  }

  lemma TakenEntryKeeps(s: Fs, i: nat, j: nat, b: nat)
    requires Inv(s) && i in s.inodes && s.inodes[i].addrs[NDIRECT] != 0 && j < NINDIRECT
    requires Addr(s, i, NDIRECT + j) == 0 && b < s.size && !s.bitmap[b]
    ensures var s' := TakenEntry(s, i, j, b); Inv(s') && OneAddr(s, s', i, NDIRECT + j, b) && SameIndirect(s, s')
  {
    hide Placed;
    FreeUnheld(s, b);
    var s' := TakenEntry(s, i, j, b);
    assert Shape(s');
    AssignKeeps(s, s', i, NDIRECT + j, b);
  }

  lemma TakenIndirectShape(s: Fs, i: nat, b: nat)
    requires Inv(s) && i in s.inodes && s.inodes[i].addrs[NDIRECT] == 0 && b < s.size && !s.bitmap[b]
    ensures var s' := TakenIndirect(s, i, b);
            && Shape(s') && OneAddr(s, s', i, 0, Addr(s, i, 0))
            && (forall x | x in s.inodes :: s'.inodes[x].addrs[NDIRECT] == if x == i then b
              else s.inodes[x].addrs[NDIRECT])
  {
    hide Held, Placed;
    FreeUnheld(s, b);
  }

  lemma TakenIndirectKeeps(s: Fs, i: nat, b: nat)
    requires Inv(s) && i in s.inodes && s.inodes[i].addrs[NDIRECT] == 0 && b < s.size && !s.bitmap[b]
    ensures var s' := TakenIndirect(s, i, b); Inv(s') && OneAddr(s, s', i, 0, Addr(s, i, 0))
  {
    hide Addr;
    FreeUnheld(s, b);
    var s' := TakenIndirect(s, i, b);
    TakenIndirectShape(s, i, b);
    forall x, y: nat | x in s'.inodes && y < MAXFILE && Addr(s', x, y) != 0
      ensures Addr(s', x, y) in s'.owner && s'.owner[Addr(s', x, y)] == DataOf(x, y)
    {
      assert Addr(s', x, y) == Addr(s, x, y);
    }
  }

  // ---------------------------------------------------------------------
  // What the changes mean for contents

  /** Every byte of every inode is as before. */
  ghost predicate SameBytes(s: Fs, s': Fs)
    requires Shape(s) && Shape(s')
  {
    && s'.inodes.Keys == s.inodes.Keys
    && (forall x | x in s.inodes :: s'.inodes[x].size == s.inodes[x].size)
    && (forall x, k: nat | x in s.inodes && k < MAXFILE * BSIZE :: ByteAt(s', x, k) == ByteAt(s, x, k))
  }

  /** A fresh zeroed block reads like the hole it fills. */
  lemma FreshBytes(s: Fs, s': Fs, i: nat, bn: nat, b: nat, a: nat)
    requires Inv(s) && Inv(s') && i in s.inodes && bn < MAXFILE && b < s.size && !s.bitmap[b]
    requires OneAddr(s, s', i, bn, a) && (a == Addr(s, i, bn) || (a == b && Addr(s, i, bn) == 0))
    requires s'.blocks == s.blocks[b := Zeros()]
    ensures SameBytes(s, s')
  {
    hide Inv, Addr, ByteAt, OneAddr;
    FreshShapes(s, s', i, bn, a);
    forall x, k: nat | x in s.inodes && k < MAXFILE * BSIZE ensures ByteAt(s', x, k) == ByteAt(s, x, k) {
      FreshByte(s, s', i, bn, b, a, x, k);
    }
  }

  lemma FreshShapes(s: Fs, s': Fs, i: nat, bn: nat, a: nat)
    requires Inv(s) && Inv(s') && i in s.inodes && bn < MAXFILE && OneAddr(s, s', i, bn, a)
    ensures Shape(s) && Shape(s') && s'.inodes.Keys == s.inodes.Keys
    ensures forall x | x in s.inodes :: s'.inodes[x].size == s.inodes[x].size
  {
    hide Addr;
  }

  lemma FreshByte(s: Fs, s': Fs, i: nat, bn: nat, b: nat, a: nat, x: nat, k: nat)
    requires Inv(s) && Inv(s') && i in s.inodes && bn < MAXFILE && b < s.size && !s.bitmap[b]
    requires OneAddr(s, s', i, bn, a) && (a == Addr(s, i, bn) || (a == b && Addr(s, i, bn) == 0))
    requires s'.blocks == s.blocks[b := Zeros()] && x in s.inodes && k < MAXFILE * BSIZE
    ensures x in s'.inodes && ByteAt(s', x, k) == ByteAt(s, x, k)
  {
    FreeUnheld(s, b);
    hide Addr, Held, Placed, Marked;
    assert k / BSIZE < MAXFILE;
    assert Addr(s', x, k / BSIZE) == if x == i && k / BSIZE == bn then a else Addr(s, x, k / BSIZE);
  }

  /** The state after block a gets new bytes. */
  function Stored(s: Fs, a: nat, data: seq<byte>): Fs {
    s.(blocks := s.blocks[a := data])
  }

  lemma StoredKeeps(s: Fs, a: nat, data: seq<byte>)
    requires Inv(s) && a < s.size && |data| == BSIZE
    ensures var s' := Stored(s, a, data);
            && Inv(s') && s'.inodes == s.inodes
            && (forall x, y: nat | x in s.inodes && y < MAXFILE :: Addr(s', x, y) == Addr(s, x, y))
  {
    var s' := Stored(s, a, data);
    assert Shape(s');
    assert forall x, y: nat | x in s.inodes && y < MAXFILE :: Addr(s', x, y) == Addr(s, x, y);
    hide Addr;
    assert Held(s') && Placed(s');
  }

  /** Writing the data block bn of inode i changes those bytes of that inode only. */
  lemma StoredBytes(s: Fs, i: nat, bn: nat, data: seq<byte>)
    requires Inv(s) && i in s.inodes && bn < MAXFILE && Addr(s, i, bn) != 0 && |data| == BSIZE
    ensures Addr(s, i, bn) < s.size
    ensures var s' := Stored(s, Addr(s, i, bn), data);
            && Inv(s')
            && (forall x, k: nat | x in s.inodes && k < MAXFILE * BSIZE ::
                  ByteAt(s', x, k) == if x == i && k / BSIZE == bn then data[k % BSIZE] else ByteAt(s, x, k))
  {
    AddrBound(s, i, bn);
    var a := Addr(s, i, bn);
    var s' := Stored(s, a, data);
    StoredKeeps(s, a, data);
    hide Addr, Placed, Marked;
    forall x, k: nat | x in s.inodes && k < MAXFILE * BSIZE
      ensures ByteAt(s', x, k) == if x == i && k / BSIZE == bn then data[k % BSIZE] else ByteAt(s, x, k)
    {
      assert k / BSIZE < MAXFILE;
      assert Addr(s', x, k / BSIZE) == Addr(s, x, k / BSIZE);
      if Addr(s, x, k / BSIZE) == a { assert s.owner[a] == DataOf(x, k / BSIZE) && s.owner[a] == DataOf(i, bn); }
    }
  }
}
