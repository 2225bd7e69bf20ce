/**
  The image builder (mkfs/mkfs.c) on the sectors of its disk.  Inode i lies in block
  INODESTART + i / IPB, whatever i is: from inode 208 on that is the bitmap block, and from
  inode 224 on a data block.

  `st` is what the disk means while all inodes lie below the data blocks.  The flag `tidy` of
  the methods says so; without it they promise nothing about the meaning of the disk.
 */
module Mkfs {
  import opened Prelude
  import opened Words
  import opened FsState
  import opened FsCode
  import opened DiskInode
  import opened MkfsState

  type Disk = d: seq<Sector> | |d| == FSSIZE witness seq(FSSIZE, _ => Zeros())

  /** The first inode number whose inode would lie in a data block. */
  const LIMIT: nat := (NINODEBLOCKS + 1) * IPB

  /** rsect and wsect compute the offset in 32 bits, so a sector number counts modulo 2^22. */
  function Sec(x: nat): nat { x % 0x40_0000 }

  function IBlock(i: nat): nat { INODESTART + i / IPB }

  function InodeAt(d: Disk, i: nat): Dinode
    requires Sec(IBlock(i)) < FSSIZE
  {
    Decode(d[Sec(IBlock(i))], i % IPB * DINODE)
  }

  function PutInode(d: Disk, i: nat, din: Dinode): Disk
    requires Sec(IBlock(i)) < FSSIZE && |din.addrs| == NDIRECT + 1
  {
    d[Sec(IBlock(i)) := Patched(d[Sec(IBlock(i))], i % IPB * DINODE, Encode(din))]
  }

  function Kind(i: nat): nat { if i == ROOTINO then T_DIR else T_FILE }

  /** How an inode of the image appears on disk. */
  function OnDisk(i: nat, ino: Inode): Dinode { Dinode(Kind(i), 0, 0, 1, ino.size, ino.addrs) }

  // ---------------------------------------------------------------------
  // What a disk means

  ghost predicate InodesShow(d: Disk, s: Fs, skip: nat) {
    forall i | i in s.inodes && i != skip :: Sec(IBlock(i)) < FSSIZE && InodeAt(d, i) == OnDisk(i, s.inodes[i])
  }

  predicate WordsAre(s: Sector, row: seq<nat>) {
    |row| == NINDIRECT && forall j | 0 <= j < NINDIRECT :: Word(s, 4 * j) == row[j]
  }

  ghost predicate BlockShows(d: Disk, s: Fs, b: nat) {
    && b in s.owner && b < FSSIZE && b in s.blocks && b in s.ptrs
    && (s.owner[b].DataOf? ==> d[b] == s.blocks[b])
    && (s.owner[b].IndirectOf? ==> WordsAre(d[b], s.ptrs[b]))
  }

  /** The disk holds the inodes, the blocks they use, and the bitmap. */
  ghost predicate Means(d: Disk, s: Fs) {
    && s.size == FSSIZE && InodesShow(d, s, 0) && (forall b | b in s.owner && !s.owner[b].Meta? :: BlockShows(d, s, b))
    && |s.bitmap| == FSSIZE && (forall b: nat | b < FSSIZE :: BitAt(d[BMAPSTART], b) <==> s.bitmap[b])
  }

  /**
    While the image is being built: inode `skip` is in memory, the blocks from fb on are
    still zero, and everything that is in use lies beside the inodes.
   */
  ghost predicate Shows(d: Disk, s: Fs, fb: nat, skip: nat) {
    && s.size == FSSIZE && NMETA <= fb && InodesShow(d, s, skip) && (forall i | i in s.inodes :: 0 < i < LIMIT)
    && (forall b | b in s.owner && !s.owner[b].Meta? :: NMETA <= b && BlockShows(d, s, b))
    && (forall b: nat | fb <= b < FSSIZE :: d[b] == Zeros())
  }

  /** The image is what mkfs promises: it means some file system with exactly these files. */
  ghost predicate Complete(d: Disk, names: seq<seq<byte>>, files: seq<seq<byte>>) {
    exists s: Fs :: Means(d, s) && Finished(s, names, files)
  }

  lemma InodeBlock(i: nat)
    requires i < LIMIT
    ensures IBlock(i) < NMETA && Sec(IBlock(i)) == IBlock(i)
  {
  }

  lemma ZeroWords(s: Sector)
    requires s == Zeros()
    ensures WordsAre(s, NoPtrs())
  {
  }

  lemma ShowsSkip(d: Disk, s: Fs, fb: nat, i: nat)
    requires Shows(d, s, fb, 0)
    ensures Shows(d, s, fb, i)
  {
  }

  /** A new direct block. */
  lemma ShowsDirect(d: Disk, s: Fs, fb: nat, i: nat, bn: nat)
    requires Building(s, fb) && Shows(d, s, fb, i) && fb < FSSIZE && i in s.inodes && bn < NDIRECT
    ensures |s.inodes[i].addrs| == NDIRECT + 1
    ensures Shows(d, SetAddr(s, i, bn, fb).(owner := s.owner[fb := DataOf(i, bn)]), fb + 1, i)
  {
    hide Inv, InodeAt, WordsAre;
    BuildingShape(s, fb, i);
    var s' := SetAddr(s, i, bn, fb).(owner := s.owner[fb := DataOf(i, bn)]);
    forall b | b in s'.owner && !s'.owner[b].Meta? ensures NMETA <= b && BlockShows(d, s', b) {
      if b != fb { assert BlockShows(d, s, b); }
    }
  }

  /** A new indirect block, which holds no number yet. */
  lemma ShowsIndirect(d: Disk, s: Fs, fb: nat, i: nat)
    requires Building(s, fb) && Shows(d, s, fb, i) && fb < FSSIZE && i in s.inodes
    ensures |s.inodes[i].addrs| == NDIRECT + 1
    ensures Shows(d, SetAddr(s, i, NDIRECT, fb).(owner := s.owner[fb := IndirectOf(i)]), fb + 1, i)
  {
    hide Inv, InodeAt, WordsAre;
    BuildingShape(s, fb, i);
    ZeroWords(d[fb]);
    var s' := SetAddr(s, i, NDIRECT, fb).(owner := s.owner[fb := IndirectOf(i)]);
    forall b | b in s'.owner && !s'.owner[b].Meta? ensures NMETA <= b && BlockShows(d, s', b) {
      if b != fb { assert BlockShows(d, s, b); }
    }
  }

  lemma BuildingShape(s: Fs, fb: nat, i: nat)
    requires Building(s, fb) && i in s.inodes
    ensures |s.inodes[i].addrs| == NDIRECT + 1
    ensures forall k | 0 <= k <= NDIRECT :: s.inodes[i].addrs[k] < s.size
    ensures fb < s.size ==> fb in s.blocks && s.blocks[fb] == Zeros() && fb in s.ptrs && s.ptrs[fb] == NoPtrs()
    ensures forall b: nat | b < s.size :: b in s.blocks && |s.blocks[b]| == BSIZE && b in s.ptrs
              && |s.ptrs[b]| == NINDIRECT
  {
    forall k | 0 <= k < NDIRECT ensures s.inodes[i].addrs[k] < s.size {
      AddrBound(View(s, fb), i, k);
    }
  }

  /** The indirect block of an inode belongs to it. */
  lemma IndirectOwned(d: Disk, s: Fs, fb: nat, i: nat, skip: nat)
    requires Building(s, fb) && Shows(d, s, fb, skip) && i in s.inodes && s.inodes[i].addrs[NDIRECT] != 0
    ensures var p := s.inodes[i].addrs[NDIRECT];
            NMETA <= p < FSSIZE && p < fb && Sec(p) == p && p in s.owner && s.owner[p] == IndirectOf(i)
              && p in s.ptrs && WordsAre(d[p], s.ptrs[p])
  {
    hide WordsAre, InodeAt, Placed, Addr;
    var p := s.inodes[i].addrs[NDIRECT];
    assert View(s, fb).bitmap[p];
    assert BlockShows(d, s, p);
  }

  /** A new number in the indirect block. */
  lemma ShowsEntry(d: Disk, s: Fs, fb: nat, i: nat, j: nat)
    requires Building(s, fb) && Shows(d, s, fb, i) && fb < FSSIZE && i in s.inodes && j < NINDIRECT
    requires s.inodes[i].addrs[NDIRECT] != 0
    ensures var p := s.inodes[i].addrs[NDIRECT];
            && p < FSSIZE && p in s.ptrs && |s.ptrs[p]| == NINDIRECT
            && Shows(d[p := PutWord(d[p], 4 * j, fb)],
              SetPtr(s, p, j, fb).(owner := s.owner[fb := DataOf(i, NDIRECT + j)]), fb + 1, i)
  {
    hide Inv, WordsAre, PutWord, Decode;
    BuildingShape(s, fb, i);
    var p := s.inodes[i].addrs[NDIRECT];
    IndirectOwned(d, s, fb, i, i);
    WordsPut(d[p], s.ptrs[p], j, fb);
    var d', s' := d[p := PutWord(d[p], 4 * j, fb)],
      SetPtr(s, p, j, fb).(owner := s.owner[fb := DataOf(i, NDIRECT + j)]);
    forall b | b in s'.owner && !s'.owner[b].Meta? ensures NMETA <= b && BlockShows(d', s', b) {
      if b != fb { assert BlockShows(d, s, b); }
    }
    InodesBeside(d, d', s, p, i);
  }

  lemma WordsPut(s: Sector, row: seq<nat>, j: nat, v: nat)
    requires WordsAre(s, row) && j < NINDIRECT && v < UINT
    ensures WordsAre(PutWord(s, 4 * j, v), row[j := v])
  {
    hide Word;
    WordBack(s, 4 * j, v);
    forall k | 0 <= k < NINDIRECT ensures Word(PutWord(s, 4 * j, v), 4 * k) == row[j := v][k] {
      if k != j {
        WordElsewhere(s, 4 * j, Bytes4(v), 4 * k);
      }
    }
  }

  /** Inodes do not notice a change of a data block. */
  lemma InodesBeside(d: Disk, d': Disk, s: Fs, b: nat, skip: nat)
    requires InodesShow(d, s, skip) && NMETA <= b < FSSIZE && d' == d[b := d'[b]]
    requires forall i | i in s.inodes :: i < LIMIT
    ensures InodesShow(d', s, skip)
  {
    hide Decode;
    forall i | i in s.inodes && i != skip ensures InodeAt(d', i) == OnDisk(i, s.inodes[i]) {
      InodeBlock(i);
    }
  }

  /** A chunk written into a data block. */
  lemma ShowsChunk(d: Disk, s: Fs, fb: nat, skip: nat, x: nat, o: nat, part: seq<byte>)
    requires Shows(d, s, fb, skip) && x in s.owner && s.owner[x].DataOf? && x < fb && o + |part| <= BSIZE
    ensures NMETA <= x < FSSIZE && d[x] == s.blocks[x]
    ensures Shows(d[x := Patched(d[x], o, part)], Stored(s, x, s.blocks[x][..o] + part + s.blocks[x][o + |part|..]),
              fb, skip)
  {
    hide WordsAre, Decode;
    assert BlockShows(d, s, x);
    var d' := d[x := Patched(d[x], o, part)];
    var s' := Stored(s, x, s.blocks[x][..o] + part + s.blocks[x][o + |part|..]);
    forall b | b in s'.owner && !s'.owner[b].Meta? ensures NMETA <= b && BlockShows(d', s', b) {
      assert BlockShows(d, s, b);
    }
    InodesBeside(d, d', s, x, skip);
  }

  /** winode: the inode in memory goes to its place beside the others. */
  lemma ShowsInode(d: Disk, s: Fs, fb: nat, i: nat)
    requires Shows(d, s, fb, i) && i in s.inodes && Fits(OnDisk(i, s.inodes[i]))
    ensures Sec(IBlock(i)) < FSSIZE && Shows(PutInode(d, i, OnDisk(i, s.inodes[i])), s, fb, 0)
  {
    hide WordsAre, Decode, Encode, Patched;
    InodeBlock(i);
    var d' := PutInode(d, i, OnDisk(i, s.inodes[i]));
    forall b | b in s.owner && !s.owner[b].Meta? ensures NMETA <= b && BlockShows(d', s, b) {
      assert BlockShows(d, s, b);
    }
    forall k | k in s.inodes ensures Sec(IBlock(k)) < FSSIZE && InodeAt(d', k) == OnDisk(k, s.inodes[k]) {
      InodeBlock(k);
      if k / IPB == i / IPB {
        StoredInode(d[IBlock(i)], i % IPB, OnDisk(i, s.inodes[i]), k % IPB);
      }
    }
  }

  lemma InodeFits(s: Fs, fb: nat, i: nat)
    requires Building(s, fb) && s.size == FSSIZE && i in s.inodes && s.inodes[i].size < UINT
    ensures Fits(OnDisk(i, s.inodes[i]))
  {
    hide Inv;
    BuildingShape(s, fb, i);
  }

  /** ialloc: an empty inode. */
  lemma ShowsFresh(d: Disk, s: Fs, fb: nat, i: nat)
    requires Shows(d, s, fb, 0) && i !in s.inodes && 0 < i < LIMIT
    ensures Sec(IBlock(i)) < FSSIZE
    ensures Shows(PutInode(d, i, OnDisk(i, Inode(0, seq(NDIRECT + 1, _ => 0)))), Fresh(s, i), fb, 0)
  {
    hide WordsAre, InodeAt, PutInode;
    var s' := Fresh(s, i);
    forall b | b in s'.owner && !s'.owner[b].Meta? ensures NMETA <= b && BlockShows(d, s', b) {
      assert BlockShows(d, s, b);
    }
    ShowsInode(d, s', fb, i);
  }

  /** The bitmap block overwrites no inode if all inodes lie before it. */
  lemma ShowsBitmap(d: Disk, s: Fs, fb: nat, bits: Sector)
    requires Shows(d, s, fb, 0) && FirstBits(bits, fb) && fb <= FSSIZE
    requires forall i | i in s.inodes :: i < NINODEBLOCKS * IPB
    ensures Means(d[BMAPSTART := bits], s.(bitmap := Bits(FSSIZE, fb)))
  {
    hide WordsAre, Decode, BitAt, FirstBits;
    var d', s' := d[BMAPSTART := bits], s.(bitmap := Bits(FSSIZE, fb));
    forall b | b in s'.owner && !s'.owner[b].Meta? ensures BlockShows(d', s', b) {
      assert BlockShows(d, s, b);
    }
    forall i | i in s.inodes ensures Sec(IBlock(i)) < FSSIZE && InodeAt(d', i) == OnDisk(i, s.inodes[i]) {
      assert IBlock(i) < BMAPSTART;
    }
    forall b: nat | b < FSSIZE ensures BitAt(bits, b) <==> s'.bitmap[b] {
      FirstBitsAt(bits, fb, b);
    }
  }

  /** Inode 208 lies in the bitmap block, whose first bits are all set. */
  lemma BitsOver(d: Disk, fb: nat)
    requires FirstBits(d[BMAPSTART], fb) && NMETA <= fb
    ensures Sec(IBlock(NINODEBLOCKS * IPB)) == BMAPSTART && InodeAt(d, NINODEBLOCKS * IPB).kind == 0xffff
  {
    assert d[BMAPSTART][0] == 255 && d[BMAPSTART][1] == 255;
  }

  lemma InodeLost(d: Disk, fb: nat, names: seq<seq<byte>>, files: seq<seq<byte>>)
    requires FirstBits(d[BMAPSTART], fb) && NMETA <= fb && |files| + 2 > NINODEBLOCKS * IPB
    ensures !Complete(d, names, files)
  {
    hide FirstBits, InodeAt, Finished, BlockShows, BitAt;
    BitsOver(d, fb);
    var i := NINODEBLOCKS * IPB;
    forall s: Fs | Means(d, s) ensures !Finished(s, names, files) {
      NotThere(d, s, i);
      Unfinished(s, names, files, i);
    }
  }

  lemma NotThere(d: Disk, s: Fs, i: nat)
    requires i != 0 && Means(d, s) && Sec(IBlock(i)) < FSSIZE && InodeAt(d, i).kind > T_FILE
    ensures i !in s.inodes
  {
  }

  lemma Unfinished(s: Fs, names: seq<seq<byte>>, files: seq<seq<byte>>, i: nat)
    requires i !in s.inodes && 1 <= i < |files| + 2
    ensures !Finished(s, names, files)
  {
  }

  // ---------------------------------------------------------------------
  // The program

  class Image {
    var disk: Disk
    var freeinode: nat
    var freeblock: nat
    ghost var st: Fs

    /** The disk means st, whose blocks below the counter count as used. */
    ghost predicate Tidy()
      reads this
    {
      Building(st, freeblock) && Shows(disk, st, freeblock, 0) && st.size == FSSIZE
    }

    /** The same while inode inum is in memory as din. */
    ghost predicate Open(inum: nat, din: Dinode)
      reads this
    {
      && Building(st, freeblock) && Shows(disk, st, freeblock, inum) && st.size == FSSIZE
      && inum in st.inodes && din == OnDisk(inum, st.inodes[inum])
    }

    /** The image before any inode: all sectors zero. */
    constructor ()
      ensures Tidy() && freeblock == NMETA && freeinode == ROOTINO && st.inodes == map[]
    {
      hide Inv, Blank;
      disk := seq(FSSIZE, _ => Zeros());
      freeinode := ROOTINO;
      freeblock := NMETA;
      st := Empty(FSSIZE, NMETA);
      EmptyBuilding(FSSIZE, NMETA);
    }

    method Rinode(inum: nat) returns (ok: bool, din: Dinode)
      ensures ok <==> Sec(IBlock(inum)) < FSSIZE
      ensures ok ==> din == InodeAt(disk, inum)
      ensures |din.addrs| == NDIRECT + 1
    {
      var bn := Sec(IBlock(inum));
      if bn >= FSSIZE {
        return false, Dinode(0, 0, 0, 0, 0, seq(NDIRECT + 1, _ => 0));
      }
      return true, Decode(disk[bn], inum % IPB * DINODE);
    }

    method Winode(inum: nat, din: Dinode) returns (ok: bool)
      requires |din.addrs| == NDIRECT + 1
      modifies this`disk
      ensures ok <==> Sec(IBlock(inum)) < FSSIZE
      ensures ok ==> disk == PutInode(old(disk), inum, din)
    {
      var bn := Sec(IBlock(inum));
      if bn >= FSSIZE {
        return false;
      }
      disk := disk[bn := Patched(disk[bn], inum % IPB * DINODE, Encode(din))];
      return true;
    }

    method Ialloc(kind: nat, ghost tidy: bool) returns (ok: bool, inum: nat)
      requires tidy ==> Tidy() && freeinode !in st.inodes && 0 < freeinode < LIMIT && kind == Kind(freeinode)
      modifies this`disk, this`st, this`freeinode
      ensures inum == old(freeinode) && freeinode == inum + 1 && (ok <==> Sec(IBlock(inum)) < FSSIZE)
      ensures tidy ==> ok && Tidy() && st == Fresh(old(st), inum)
    {
      hide Inv, Blank, Shows, PutInode;
      inum := freeinode;
      freeinode := freeinode + 1;
      if tidy {
        FreshKeeps(View(st, freeblock), inum);
        ShowsFresh(disk, st, freeblock, inum);
        assert View(Fresh(st, inum), freeblock) == Fresh(View(st, freeblock), inum);
        FreshBlank(st, freeblock, inum);
        st := Fresh(st, inum);
      }
      ok := Winode(inum, Dinode(kind, 0, 0, 1, 0, seq(NDIRECT + 1, _ => 0)));
    }

    /** The block of file block fbn, handed out if there is none; fails at the first sector past the disk. */
    method BlockFor(inum: nat, din: Dinode, fbn: nat, ghost tidy: bool) returns (ok: bool, x: nat, din': Dinode)
      requires fbn < MAXFILE && |din.addrs| == NDIRECT + 1 && (tidy ==> Open(inum, din))
      modifies this`disk, this`st, this`freeblock
      ensures freeblock >= old(freeblock) && din' == din.(addrs := din'.addrs) && |din'.addrs| == NDIRECT + 1
      ensures tidy && ok ==> Open(inum, din') && Handed(old(st), old(freeblock), st, freeblock, inum, fbn, x)
      ensures tidy && !ok ==> TooMany(old(st), old(freeblock), inum, fbn)
    {
      hide Inv, Grew, Addr, Blank, Shows;
      ghost var s, fb := st, freeblock;
      din' := din;
      if fbn >= NDIRECT {
        ok, x, din' := EntryFor(inum, din, fbn - NDIRECT, tidy);
        return;
      }
      if tidy {
        ViewGrewNothing(s, fb, inum, fbn);
      }
      if din.addrs[fbn] == 0 {
        if freeblock >= FSSIZE {     // the following rsect fails
          return false, 0, din;
        }
        if tidy {
          NextDirect(s, fb, inum, fbn);
          ShowsDirect(disk, s, fb, inum, fbn);
          st := SetAddr(st, inum, fbn, freeblock).(owner := st.owner[freeblock := DataOf(inum, fbn)]);
        }
        din' := din.(addrs := din.addrs[fbn := freeblock]);
        freeblock := freeblock + 1;
      }
      return true, din'.addrs[fbn], din';
    }

    /** The indirect block of the inode, handed out if there is none. */
    method IndirectBlock(inum: nat, din: Dinode, ghost bn: nat, ghost tidy: bool) returns (ok: bool, din': Dinode)
      requires NDIRECT <= bn < MAXFILE && |din.addrs| == NDIRECT + 1 && (tidy ==> Open(inum, din))
      modifies this`st, this`freeblock
      ensures freeblock >= old(freeblock) && din' == din.(addrs := din'.addrs) && |din'.addrs| == NDIRECT + 1
      ensures tidy && ok ==> && Open(inum, din') && IndirectHanded(old(st), old(freeblock), st, freeblock, inum, bn)
                             && freeblock == old(freeblock) + if din.addrs[NDIRECT] == 0 then 1 else 0
      ensures tidy && !ok ==> din.addrs[NDIRECT] == 0 && old(freeblock) >= FSSIZE
    {
      hide Inv, Grew, Addr, Blank, Shows;
      din' := din;
      if tidy {
        ViewGrewNothing(st, freeblock, inum, bn);
      }
      if din.addrs[NDIRECT] == 0 {
        if freeblock >= FSSIZE {     // the following rsect fails
          return false, din';
        }
        if tidy {
          BuildingShape(st, freeblock, inum);
          NextIndirect(st, freeblock, inum, bn);
          ShowsIndirect(disk, st, freeblock, inum);
          st := SetAddr(st, inum, NDIRECT, freeblock).(owner := st.owner[freeblock := IndirectOf(inum)]);
        }
        din' := din.(addrs := din.addrs[NDIRECT := freeblock]);
        freeblock := freeblock + 1;
      }
      return true, din';
    }

    method EntryFor(inum: nat, din: Dinode, j: nat, ghost tidy: bool) returns (ok: bool, x: nat, din': Dinode)
      requires j < NINDIRECT && |din.addrs| == NDIRECT + 1 && (tidy ==> Open(inum, din))
      modifies this`disk, this`st, this`freeblock
      ensures freeblock >= old(freeblock) && din' == din.(addrs := din'.addrs) && |din'.addrs| == NDIRECT + 1
      ensures tidy && ok ==> Open(inum, din') && Handed(old(st), old(freeblock), st, freeblock, inum, NDIRECT + j, x)
      ensures tidy && !ok ==> TooMany(old(st), old(freeblock), inum, NDIRECT + j)
    {
      hide Inv, Grew, Addr, Blank, Shows, Missing, WordsAre;
      ghost var s, fb := st, freeblock;
      ghost var bn := NDIRECT + j;
      if tidy {
        MissingEntry(s, fb, inum, j);
      }
      ok, din' := IndirectBlock(inum, din, bn, tidy);
      if !ok {
        return false, 0, din';
      }
      ghost var mid, fm := st, freeblock;
      var p := din'.addrs[NDIRECT];
      if tidy {
        ViewGrewNothing(mid, fm, inum, bn);
        IndirectOwned(disk, mid, fm, inum, inum);
        WordIs(disk[p], mid.ptrs[p], j);
      }
      if Sec(p) >= FSSIZE {
        return false, 0, din';
      }
      x := Word(disk[Sec(p)], 4 * j);
      if x == 0 {
        x := freeblock;
        if tidy && freeblock < FSSIZE {
          NextEntry(mid, fm, inum, j);
          ShowsEntry(disk, mid, fm, inum, j);
          st := SetPtr(st, p, j, freeblock).(owner := st.owner[freeblock := DataOf(inum, bn)]);
        }
        disk := disk[Sec(p) := PutWord(disk[Sec(p)], 4 * j, freeblock)];
        freeblock := freeblock + 1;
        if x >= FSSIZE {             // the following rsect fails
          return false, 0, din';
        }
      }
      ok := true;
      if tidy {
        GrewTransitive(View(s, fb), View(mid, fm), View(st, freeblock), inum, bn, Addr(View(s, fb), inum, bn), x);
      }
    }

    /** Stores bytes that lie in one block, in its block if there is room for one. */
    method AppendChunk(inum: nat, din: Dinode, pos: nat, part: seq<byte>, ghost tidy: bool)
        returns (ok: bool, din': Dinode)
      requires part != [] && pos % BSIZE + |part| <= BSIZE && pos / BSIZE < MAXFILE
      requires |din.addrs| == NDIRECT + 1 && (tidy ==> Open(inum, din))
      modifies this`disk, this`st, this`freeblock
      ensures freeblock >= old(freeblock) && din' == din.(addrs := din'.addrs) && |din'.addrs| == NDIRECT + 1
      ensures tidy && ok ==> Open(inum, din') && ChunkHanded(old(st), old(freeblock), st, freeblock, inum, pos, part)
      ensures tidy && !ok ==> TooMany(old(st), old(freeblock), inum, pos / BSIZE)
    {
      hide Inv, Blank, Addr, Grew, Missing, Shows, FileSystem.Wrote, FileSystem.AddrsKept, OnlyAt;
      ghost var s, fb := st, freeblock;
      var x;
      ok, x, din' := BlockFor(inum, din, pos / BSIZE, tidy);
      if !ok {
        return;
      }
      var o := pos % BSIZE;
      if tidy {
        ghost var v := View(s, fb);
        ChunkStored(v, st, freeblock, inum, pos, part, x);
        DataOwned(v, st, freeblock, inum, pos / BSIZE, x);
        ShowsChunk(disk, st, freeblock, inum, x, o, part);
        st := Stored(st, x, st.blocks[x][..o] + part + st.blocks[x][o + |part|..]);
      }
      if Sec(x) >= FSSIZE {
        return false, din';
      }
      disk := disk[Sec(x) := Patched(disk[Sec(x)], o, part)];
    }

    /** Appends the bytes to the inode; fails when the disk or the file is full. */
    method Iappend(inum: nat, data: seq<byte>, ghost tidy: bool) returns (ok: bool)
      requires tidy ==> Tidy() && Appendable(st, freeblock, inum)
      modifies this`disk, this`st, this`freeblock
      ensures freeblock >= old(freeblock)
      ensures tidy ==>
                var size := old(st).inodes[inum].size;
                ok <==> size + |data| <= MAXFILE * BSIZE && old(freeblock) + Need(size + |data|) - Need(size) <= FSSIZE
      ensures tidy && ok ==> Tidy() && AppendedBy(old(st), old(freeblock), st, freeblock, inum, data)
    {
      hide Building, Shows, InodesShow, InodeAt, PutInode, Appendable, AppendedBy, Midway, ChunkHanded, TooMany, Need,
        Fits;
      if tidy {
        AppendStart(disk, st, freeblock, inum, data);
      }
      var din;
      ok, din := Rinode(inum);
      if !ok {
        return;
      }
      var off := din.size;
      var tot := 0;
      while tot < |data|
        invariant 0 <= tot <= |data| && freeblock >= old(freeblock) && din.size == off && |din.addrs| == NDIRECT + 1
        invariant tidy ==> inum in old(st).inodes && off == old(st).inodes[inum].size
        invariant tidy ==> Open(inum, din) && Midway(old(st), old(freeblock), st, freeblock, inum, data, tot)
      {
        var fbn := (off + tot) / BSIZE;
        if fbn >= MAXFILE {
          return false;
        }
        ghost var s, fb := st, freeblock;
        var n1 := FileSystem.Chunk(off + tot, |data| - tot);
        ok, din := AppendChunk(inum, din, off + tot, data[tot..tot + n1], tidy);
        if !ok {
          if tidy { AppendFull(old(st), old(freeblock), s, fb, inum, data, tot); }
          return;
        }
        if tidy { AppendMore(old(st), old(freeblock), s, fb, st, freeblock, inum, data, tot); }
        tot := tot + n1;
      }
      if tidy {
        AppendEnd(disk, old(st), old(freeblock), st, freeblock, inum, data);
        st := Resized(st, inum, off + tot);
      }
      ok := Winode(inum, din.(size := off + tot));
    }

    /** Marks the blocks below `used` in the bitmap block; an assertion stops it if they do not fit. */
    method Balloc(used: nat) returns (ok: bool)
      modifies this`disk
      ensures ok <==> used < BPB
      ensures ok ==> disk == old(disk)[BMAPSTART := disk[BMAPSTART]] && FirstBits(disk[BMAPSTART], used)
    {
      if used >= BPB {
        return false;
      }
      hide SetBit;
      var buf := Zeros();
      var i := 0;
      while i < used
        invariant 0 <= i <= used && FirstBits(buf, i) && disk == old(disk)
      {
        MaskMore(i % 8);
        buf := buf[i / 8 := SetBit(buf[i / 8], i % 8)];
        i := i + 1;
      }
      disk := disk[BMAPSTART := buf];
      return true;
    }

    /** Reads the file a block at a time and appends each block to the new, empty inode. */
    method AddBytes(inum: nat, data: seq<byte>, ghost tidy: bool) returns (ok: bool)
      requires tidy ==> Tidy() && Holds(View(st, freeblock), inum, [])
      modifies this`disk, this`st, this`freeblock
      ensures freeblock >= old(freeblock)
      ensures tidy ==> (ok <==> |data| <= MAXFILE * BSIZE && old(freeblock) + Need(|data|) <= FSSIZE)
      ensures tidy && ok ==>
                && Tidy() && freeblock == old(freeblock) + Need(|data|)
                && Filled(old(st), old(freeblock), st, freeblock, inum, data)
    {
      hide Building, Shows, Holds, Need, Appendable, AppendedBy;
      var pos := 0;
      NoBytes();
      assert data[..0] == [];
      while pos < |data|
        invariant 0 <= pos <= |data| && freeblock >= old(freeblock)
        invariant tidy ==> && pos <= MAXFILE * BSIZE && Tidy() && freeblock == old(freeblock) + Need(pos)
                           && Filled(old(st), old(freeblock), st, freeblock, inum, data[..pos])
      {
        var cc := if |data| - pos < BSIZE then |data| - pos else BSIZE;
        ghost var s, fb := st, freeblock;
        if tidy {
          NeedGrows(pos + cc, |data|);
          AppendReady(st, freeblock, inum, data[..pos]);
          ReadyToAppend(st, freeblock, inum);
        }
        ok := Iappend(inum, data[pos..pos + cc], tidy);
        if !ok {
          return;
        }
        if tidy {
          FilledMore(s, fb, st, freeblock, inum, data[..pos], data[pos..pos + cc]);
          assert data[..pos] + data[pos..pos + cc] == data[..pos + cc];
        }
        pos := pos + cc;
      }
      if tidy { BuildingFits(st, freeblock); }
      assert data[..pos] == data;
      ok := true;
    }

    /** Adds one file: an inode, its directory entry, and its bytes a block at a time. */
    method AddFile(ghost names: seq<seq<byte>>, ghost files: seq<seq<byte>>, name: seq<byte>, data: seq<byte>,
                   ghost tidy: bool)
        returns (ok: bool)
      requires tidy ==> Tidy() && Stocked(View(st, freeblock), names, files) && freeinode == |files| + 2 < LIMIT
      modifies this`disk, this`st, this`freeblock, this`freeinode
      ensures freeblock >= old(freeblock) && (ok ==> Sec(IBlock(old(freeinode))) < FSSIZE)
      ensures tidy ==> (ok <==> RoomForFile(old(freeblock), |names|, data))
      ensures tidy && ok ==> && Tidy() && Stocked(View(st, freeblock), names + [name], files + [data])
                             && freeblock == old(freeblock) + FileCost(|names|, data) && freeinode == |files| + 3
    {
      hide Building, Shows, Holds, Need, Appendable, AppendedBy, Entries, Fresh, Inv;
      ghost var s, fb := st, freeblock;
      if tidy {
        StockedFresh(st, freeblock, names, files);
      }
      var inum;
      ok, inum := Ialloc(T_FILE, tidy);
      if !ok {
        return;
      }
      ghost var s1 := st;
      if tidy {
        AppendReady(st, freeblock, ROOTINO, Entries(names));
        ReadyToAppend(st, freeblock, ROOTINO);
      }
      ok := Iappend(ROOTINO, Dirent(inum, name), tidy);
      if !ok {
        return;
      }
      if tidy {
        FilledMore(s1, fb, st, freeblock, ROOTINO, Entries(names), Dirent(inum, name));
      }
      ghost var s2, fb2 := st, freeblock;
      ok := AddBytes(inum, data, tidy);
      if tidy && ok {
        ViewInv(st, freeblock);
        StockedMore(s, fb, s2, fb2, st, freeblock, names, files, name, data);
      }
    }

    /** The root inode with its "." and ".." entries. */
    method AddRoot() returns (ok: bool)
      requires Tidy() && st.inodes == map[] && freeinode == ROOTINO && freeblock < FSSIZE
      modifies this`disk, this`st, this`freeblock, this`freeinode
      ensures ok && Tidy() && Stocked(View(st, freeblock), [], []) && freeinode == 2 && freeblock == old(freeblock) + 1
    {
      hide Building, Shows, Holds, Appendable, AppendedBy, Entries, Inv, Need, Dirent;
      EntriesNone();
      SmallNeeds();
      ghost var s, fb := st, freeblock;
      ViewInv(st, freeblock);
      HoldsFresh(View(st, freeblock), freeinode);
      var root;
      ok, root := Ialloc(T_DIR, true);
      assert View(st, freeblock) == Fresh(View(s, fb), root);
      ghost var s1 := st;
      AppendReady(st, freeblock, root, []);
      ReadyToAppend(st, freeblock, root);
      ok := Iappend(root, Dirent(root, [DOT]), true);
      FilledMore(s1, fb, st, freeblock, root, [], Dirent(root, [DOT]));
      assert [] + Dirent(root, [DOT]) == Dirent(root, [DOT]);
      ghost var s2, fb2 := st, freeblock;
      AppendReady(st, freeblock, root, Dirent(root, [DOT]));
      ReadyToAppend(st, freeblock, root);
      BuildingFits(st, freeblock);
      ok := Iappend(root, Dirent(root, [DOT, DOT]), true);
      FilledMore(s2, fb2, st, freeblock, root, Dirent(root, [DOT]), Dirent(root, [DOT, DOT]));
      ViewInv(st, freeblock);
      assert st.inodes.Keys == {ROOTINO};
    }

    /**
      mkfs: a root directory with one entry per file and the files themselves.  The image is
      complete exactly when all inodes lie in the inode blocks; the inodes from 208 on are
      overwritten by the bitmap.  As long as none lies in a data block, mkfs succeeds exactly
      when everything fits.
     */
    method Build(names: seq<seq<byte>>, files: seq<seq<byte>>) returns (ok: bool)
      requires |names| == |files| && Tidy() && st.inodes == map[] && freeinode == ROOTINO && freeblock == NMETA
      modifies this`disk, this`st, this`freeblock, this`freeinode
      ensures ok ==> (Complete(disk, names, files) <==> |files| + 2 <= NINODEBLOCKS * IPB)
      ensures |files| + 2 <= LIMIT ==> (ok <==> Room(names, files))
      ensures ok && |files| + 2 <= LIMIT ==> freeblock == NMETA + Total(names, files)
      ensures ok && |files| + 2 <= NINODEBLOCKS * IPB ==> Means(disk, st) && Finished(st, names, files)
      ensures ok ==> FirstBits(disk[BMAPSTART], freeblock)
    {
      hide Building, Shows, Stocked, Finished, Need, FilesNeed, Means, FirstBits, InodeAt, PutInode;
      ghost var tidy := |files| + 2 <= LIMIT;
      RootNeed(names, files);
      ok := AddRoot();
      assert names[..0] == [] && files[..0] == [];
      var k := 0;
      while k < |files|
        invariant 0 <= k <= |files| && freeblock >= NMETA
        invariant tidy ==> && Tidy() && Stocked(View(st, freeblock), names[..k], files[..k])
                           && freeinode == k + 2 && freeblock == NMETA + Total(names[..k], files[..k])
                           && (forall j | 0 <= j < k :: |files[j]| <= MAXFILE * BSIZE)
                             && DIRENT * (k + 2) <= MAXFILE * BSIZE
      {
        TotalMore(names, files, k);
        ok := AddFile(names[..k], files[..k], names[k], files[k], tidy);
        if !ok {
          return;
        }
        assert names[..k] + [names[k]] == names[..k + 1] && files[..k] + [files[k]] == files[..k + 1];
        k := k + 1;
      }
      assert names[..k] == names && files[..k] == files;
      FixRoot(names, files, tidy);
      ghost var d := disk;
      ok := Balloc(freeblock);
      if |files| + 2 > NINODEBLOCKS * IPB {
        if ok { InodeLost(disk, freeblock, names, files); }
      } else {
        FinishedInodes(View(st, freeblock), names, files);
        ShowsBitmap(d, st, freeblock, disk[BMAPSTART]);
        st := View(st, freeblock);
        assert Means(disk, st) && Finished(st, names, files);
      }
    }

    /** The size of the root directory is rounded up, always past the next block boundary. */
    method FixRoot(ghost names: seq<seq<byte>>, ghost files: seq<seq<byte>>, ghost tidy: bool)
      requires tidy ==> Tidy() && Stocked(View(st, freeblock), names, files)
      modifies this`disk, this`st
      ensures tidy ==> && Shows(disk, st, freeblock, 0) && freeblock <= FSSIZE == st.size
                       && Finished(View(st, freeblock), names, files)
    {
      hide Building, Shows, Stocked, Finished, InodeAt, PutInode, Fits;
      if tidy {
        RootFixed(View(st, freeblock), names, files);
        RootSmall(st, freeblock, names, files);
        RootShown(disk, st, freeblock);
        BuildingFits(st, freeblock);
      }
      var ok, din := Rinode(ROOTINO);
      var off := (din.size / BSIZE + 1) * BSIZE;
      if tidy {
        assert View(Resized(st, ROOTINO, off), freeblock) == Resized(View(st, freeblock), ROOTINO, off);
        st := Resized(st, ROOTINO, off);
      }
      ok := Winode(ROOTINO, din.(size := off));
    }
  }

  ghost predicate IndirectHanded(s: Fs, fb: nat, s': Fs, fb': nat, i: nat, bn: nat) {
    && Shape(View(s, fb)) && i in s.inodes && i in s'.inodes && bn < MAXFILE
    && s'.size == s.size && s'.bitmap == s.bitmap && s'.ptrs == s.ptrs
    && Grew(View(s, fb), View(s', fb'), i, bn, Addr(View(s, fb), i, bn))
    && s'.inodes == s.inodes[i := s'.inodes[i]] && |s'.inodes[i].addrs| == NDIRECT + 1
      && |s.inodes[i].addrs| == NDIRECT + 1
    && s'.inodes[i].addrs[NDIRECT] != 0
    && s'.inodes[i].addrs[NDIRECT] == if s.inodes[i].addrs[NDIRECT] == 0 then fb else s.inodes[i].addrs[NDIRECT]
  }

  ghost predicate TooMany(s: Fs, fb: nat, i: nat, bn: nat) {
    Shape(View(s, fb)) && i in s.inodes && bn < MAXFILE && fb + Missing(View(s, fb), i, bn) > FSSIZE
  }

  /** What handing out a block does to the meaning of the disk. */
  ghost predicate Handed(s: Fs, fb: nat, s': Fs, fb': nat, i: nat, bn: nat, x: nat) {
    && Shape(View(s, fb)) && i in s.inodes && i in s'.inodes && bn < MAXFILE && x != 0
    && s'.size == s.size && s'.bitmap == s.bitmap
    && Grew(View(s, fb), View(s', fb'), i, bn, x) && fb' == fb + Missing(View(s, fb), i, bn)
    && s'.inodes == s.inodes[i := s'.inodes[i]] && |s'.inodes[i].addrs| == NDIRECT + 1
    && (s'.inodes[i].addrs[NDIRECT] != 0 <==> s.inodes[i].addrs[NDIRECT] != 0 || bn >= NDIRECT)
  }

  lemma WordIs(s: Sector, row: seq<nat>, j: nat)
    requires WordsAre(s, row) && j < NINDIRECT
    ensures Word(s, 4 * j) == row[j]
  {
  }

  lemma FreshBlank(s: Fs, fb: nat, i: nat)
    requires Blank(s, fb)
    ensures Blank(Fresh(s, i), fb)
  {
  }

  /** What storing a chunk does to the meaning of the disk. */
  ghost predicate ChunkHanded(s: Fs, fb: nat, s': Fs, fb': nat, i: nat, pos: nat, part: seq<byte>) {
    && Shape(View(s, fb)) && i in s.inodes && i in s'.inodes && pos / BSIZE < MAXFILE
    && s'.size == s.size && s'.bitmap == s.bitmap && fb' == fb + Missing(View(s, fb), i, pos / BSIZE)
    && ChunkWritten(View(s, fb), View(s', fb'), i, pos, part)
    && s'.inodes == s.inodes[i := s'.inodes[i]] && |s'.inodes[i].addrs| == NDIRECT + 1
    && |s.inodes[i].addrs| == NDIRECT + 1
    && (s'.inodes[i].addrs[NDIRECT] != 0 <==> s.inodes[i].addrs[NDIRECT] != 0 || pos / BSIZE >= NDIRECT)
  }

  lemma DataOwned(v: Fs, s: Fs, fb: nat, i: nat, bn: nat, x: nat)
    requires Building(s, fb) && bn < MAXFILE && Grew(v, View(s, fb), i, bn, x) && x != 0
    ensures x in s.owner && s.owner[x].DataOf?
  {
    hide Addr, Placed;
  }

  /** An inode that iappend can extend: no hole, no block beyond its size. */
  ghost predicate Appendable(s: Fs, fb: nat, i: nat) {
    && i in s.inodes && Shape(View(s, fb)) && s.inodes[i].size <= MAXFILE * BSIZE
    && Mapped(View(s, fb), i) && Tight(View(s, fb), i) && IndirectFor(s, i, s.inodes[i].size)
  }

  ghost predicate AppendedBy(s: Fs, fb: nat, s': Fs, fb': nat, i: nat, data: seq<byte>) {
    && i in s.inodes && i in s'.inodes && s'.size == s.size && s'.bitmap == s.bitmap
      && s'.inodes == s.inodes[i := s'.inodes[i]]
    && FileSystem.FileWritten(View(s, fb), View(s', fb'), i, s.inodes[i].size, data)
    && fb' == fb + Need(s.inodes[i].size + |data|) - Need(s.inodes[i].size)
    && IndirectFor(s', i, s.inodes[i].size + |data|)
  }

  /** The bytes that fit into the largest file. */
  function Storable(off: nat, data: seq<byte>): (r: seq<byte>)
    requires off <= MAXFILE * BSIZE
    ensures r <= data && off + |r| <= MAXFILE * BSIZE
  {
    if off + |data| > MAXFILE * BSIZE then data[..MAXFILE * BSIZE - off] else data
  }

  /** In the middle of an append. */
  ghost predicate Midway(s: Fs, fb: nat, s': Fs, fb': nat, i: nat, data: seq<byte>, tot: nat) {
    && Appendable(s, fb, i) && i in s'.inodes && s'.size == s.size && s'.bitmap == s.bitmap
    && s'.inodes == s.inodes[i := s'.inodes[i]]
    && var off := s.inodes[i].size;
       && tot <= |Storable(off, data)| && s'.inodes[i].size == off
       && FileSystem.Progress(View(s, fb), View(s', fb'), i, off, Storable(off, data), tot)
       && fb' == fb + Need(off + tot) - Need(off) && IndirectFor(s', i, off + tot)
  }

  lemma AppendStart(d: Disk, s: Fs, fb: nat, i: nat, data: seq<byte>)
    requires Building(s, fb) && Shows(d, s, fb, 0) && Appendable(s, fb, i)
    ensures i in s.inodes && Sec(IBlock(i)) < FSSIZE && InodeAt(d, i) == OnDisk(i, s.inodes[i])
    ensures Shows(d, s, fb, i) && Midway(s, fb, s, fb, i, data, 0)
  {
    hide Mapped, Tight, Need, Inv, Blank, Shows, FileSystem.Progress;
    InodeThere(d, s, fb, i);
    ShowsSkip(d, s, fb, i);
    ViewInv(s, fb);
    ProgressNone(View(s, fb), i, s.inodes[i].size, Storable(s.inodes[i].size, data));
  }

  lemma ViewInv(s: Fs, fb: nat)
    requires Building(s, fb)
    ensures Inv(View(s, fb)) && fb <= s.size
  {
  }

  lemma AppendFull(s: Fs, fb: nat, s': Fs, fb': nat, i: nat, data: seq<byte>, tot: nat)
    requires Midway(s, fb, s', fb', i, data, tot) && tot < |data|
    requires TooMany(s', fb', i, (s.inodes[i].size + tot) / BSIZE)
    ensures i in s.inodes && fb + Need(s.inodes[i].size + |data|) - Need(s.inodes[i].size) > FSSIZE
  {
    hide Mapped, Tight, Need, FileSystem.Progress, Missing;
    var off := s.inodes[i].size;
    var n := FileSystem.Chunk(off + tot, |data| - tot);
    AppendCost(View(s, fb), View(s', fb'), i, off, Storable(off, data), tot, n, off + |data|);
  }

  lemma AppendMore(s: Fs, fb: nat, s1: Fs, fb1: nat, s2: Fs, fb2: nat, i: nat, data: seq<byte>, tot: nat)
    requires Midway(s, fb, s1, fb1, i, data, tot) && tot < |data|
    requires i in s2.inodes && s2.inodes[i].size == s1.inodes[i].size
    requires var n := FileSystem.Chunk(s.inodes[i].size + tot, |data| - tot);
             ChunkHanded(s1, fb1, s2, fb2, i, s.inodes[i].size + tot, data[tot..tot + n])
    ensures Midway(s, fb, s2, fb2, i, data, tot + FileSystem.Chunk(s.inodes[i].size + tot, |data| - tot))
  {
    hide Mapped, Tight, Need, FileSystem.Progress, Missing, FileSystem.Wrote, FileSystem.AddrsKept, OnlyAt;
    var off := s.inodes[i].size;
    var n, src := FileSystem.Chunk(off + tot, |data| - tot), Storable(off, data);
    AppendCost(View(s, fb), View(s1, fb1), i, off, src, tot, n, off + |data|);
    assert data[tot..tot + n] == src[tot..][..n];
    ProgressMore(View(s, fb), View(s1, fb1), View(s2, fb2), i, off, src, tot, n);
  }

  lemma AppendEnd(d: Disk, s: Fs, fb: nat, s': Fs, fb': nat, i: nat, data: seq<byte>)
    requires Midway(s, fb, s', fb', i, data, |data|) && Building(s', fb') && Shows(d, s', fb', i)
    ensures Sec(IBlock(i)) < FSSIZE && i in s.inodes && i in s'.inodes
    ensures s.inodes[i].size + |data| <= MAXFILE * BSIZE
    ensures fb' == fb + Need(s.inodes[i].size + |data|) - Need(s.inodes[i].size) <= FSSIZE
    ensures var t := Resized(s', i, s.inodes[i].size + |data|);
            && Building(t, fb') && AppendedBy(s, fb, t, fb', i, data) && Fits(OnDisk(i, t.inodes[i]))
            && Shows(PutInode(d, i, OnDisk(i, t.inodes[i])), t, fb', 0)
  {
    hide Mapped, Tight, Need, Inv, Blank, FileSystem.Progress, FileSystem.FileWritten, PutInode, InodesShow,
      BlockShows, Fits;
    var off := s.inodes[i].size;
    assert Storable(off, data) == data;
    Appended(View(s, fb), s', fb', i, off, data);
    ShowsResized(d, s', fb', i, off + |data|);
    var t := Resized(s', i, off + |data|);
    InodeFits(t, fb', i);
    ShowsInode(d, t, fb', i);
    ViewInv(s', fb');
  }

  lemma InodeThere(d: Disk, s: Fs, fb: nat, i: nat)
    requires Shows(d, s, fb, 0) && i in s.inodes
    ensures Sec(IBlock(i)) < FSSIZE && InodeAt(d, i) == OnDisk(i, s.inodes[i])
  {
  }

  /** The size of the inode in memory may change. */
  lemma ShowsResized(d: Disk, s: Fs, fb: nat, i: nat, n: nat)
    requires i in s.inodes && Shows(d, s, fb, i)
    ensures Shows(d, Resized(s, i, n), fb, i)
  {
    hide InodeAt, WordsAre;
    var s' := Resized(s, i, n);
    forall b | b in s'.owner && !s'.owner[b].Meta? ensures NMETA <= b && BlockShows(d, s', b) {
      assert BlockShows(d, s, b);
    }
  }

  /** Inode i now holds c, and the other inodes hold what they held. */
  ghost predicate Filled(s: Fs, fb: nat, s': Fs, fb': nat, i: nat, c: seq<byte>) {
    && s'.size == s.size && s'.bitmap == s.bitmap && s'.inodes.Keys == s.inodes.Keys && Holds(View(s', fb'), i, c)
    && (forall x, e | x != i && Holds(View(s, fb), x, e) :: Holds(View(s', fb'), x, e))
  }

  lemma ReadyToAppend(s: Fs, fb: nat, i: nat)
    requires i in s.inodes && Shape(View(s, fb)) && s.inodes[i].size <= MAXFILE * BSIZE
    requires Mapped(View(s, fb), i) && Tight(View(s, fb), i) && IndirectFor(s, i, s.inodes[i].size)
    ensures Appendable(s, fb, i)
  {
  }

  /** An append adds to what the inode holds. */
  lemma FilledMore(s: Fs, fb: nat, s': Fs, fb': nat, i: nat, c: seq<byte>, d: seq<byte>)
    requires Holds(View(s, fb), i, c) && AppendedBy(s, fb, s', fb', i, d)
    ensures Filled(s, fb, s', fb', i, c + d) && fb' == fb + Need(|c| + |d|) - Need(|c|)
  {
    hide Holds, FileSystem.FileWritten, Need, IndirectFor;
    HoldsSize(View(s, fb), i, c);
    IndirectView(s', fb', i, |c| + |d|);
    HoldsAppend(View(s, fb), View(s', fb'), i, c, d);
    WrittenKeys(View(s, fb), View(s', fb'), i, |c|, d);
  }

  /** The blocks that one more file and its directory entry take after n files, and whether they fit. */
  function FileCost(n: nat, data: seq<byte>): int {
    Need(DIRENT * (n + 3)) - Need(DIRENT * (n + 2)) + Need(|data|)
  }

  predicate RoomForFile(fb: nat, n: nat, data: seq<byte>) {
    |data| <= MAXFILE * BSIZE && DIRENT * (n + 3) <= MAXFILE * BSIZE && fb + FileCost(n, data) <= FSSIZE
  }

  lemma StockedFresh(s: Fs, fb: nat, names: seq<seq<byte>>, files: seq<seq<byte>>)
    requires Stocked(View(s, fb), names, files)
    ensures var i := |files| + 2; var v := View(Fresh(s, i), fb);
            && i !in s.inodes && Holds(v, i, []) && forall x, e | Holds(View(s, fb), x, e) :: Holds(v, x, e)
  {
    hide Inv, Holds, Entries;
    HoldsFresh(View(s, fb), |files| + 2);
    assert View(Fresh(s, |files| + 2), fb) == Fresh(View(s, fb), |files| + 2);
  }

  lemma StockedMore(s: Fs, fb: nat, s2: Fs, fb2: nat, s3: Fs, fb3: nat,
                    names: seq<seq<byte>>, files: seq<seq<byte>>, name: seq<byte>, data: seq<byte>)
    requires Stocked(View(s, fb), names, files) && Inv(View(s3, fb3))
    requires Filled(Fresh(s, |files| + 2), fb, s2, fb2, ROOTINO, Entries(names) + Dirent(|files| + 2, name))
    requires Filled(s2, fb2, s3, fb3, |files| + 2, data)
    ensures Stocked(View(s3, fb3), names + [name], files + [data])
  {
    hide Inv, Holds, Entries;
    var i := |files| + 2;
    StockedFresh(s, fb, names, files);
    EntriesMore(names, name);
    var v3, files' := View(s3, fb3), files + [data];
    forall k: nat | k < |files'| ensures Holds(v3, k + 2, files'[k]) {
      if k < |files| { assert Holds(View(s, fb), k + 2, files[k]); }
    }
  }

  lemma SmallNeeds()
    ensures Need(0) == 0 && Need(DIRENT) == 1 && Need(2 * DIRENT) == 1
  {
  }

  lemma RootSmall(s: Fs, fb: nat, names: seq<seq<byte>>, files: seq<seq<byte>>)
    requires Stocked(View(s, fb), names, files)
    ensures ROOTINO in s.inodes && s.inodes[ROOTINO].size <= MAXFILE * BSIZE
  {
  }

  lemma RootShown(d: Disk, s: Fs, fb: nat)
    requires Building(s, fb) && Shows(d, s, fb, 0) && ROOTINO in s.inodes && s.inodes[ROOTINO].size <= MAXFILE * BSIZE
    ensures InodeAt(d, ROOTINO) == OnDisk(ROOTINO, s.inodes[ROOTINO]) && |s.inodes[ROOTINO].addrs| == NDIRECT + 1
    ensures var s' := Resized(s, ROOTINO, RootSize(s.inodes[ROOTINO].size));
            Shows(PutInode(d, ROOTINO, OnDisk(ROOTINO, s'.inodes[ROOTINO])), s', fb, 0)
  {
    hide Inv, InodeAt, PutInode, InodesShow, BlockShows;
    var s' := Resized(s, ROOTINO, RootSize(s.inodes[ROOTINO].size));
    InodeThere(d, s, fb, ROOTINO);
    BuildingShape(s, fb, ROOTINO);
    ShowsSkip(d, s, fb, ROOTINO);
    ShowsResized(d, s, fb, ROOTINO, RootSize(s.inodes[ROOTINO].size));
    ShowsInode(d, s', fb, ROOTINO);
  }

  lemma FinishedInodes(s: Fs, names: seq<seq<byte>>, files: seq<seq<byte>>)
    requires Finished(s, names, files)
    ensures forall i | i in s.inodes :: i < |files| + 2
  {
  }

  /** mkfs with 62 empty files builds an image whose root directory lacks its second block. */
  method BuildUnmapped(name: seq<byte>) returns (image: Image)
    ensures Means(image.disk, image.st) && Shape(image.st) && ROOTINO in image.st.inodes
    ensures image.st.inodes[ROOTINO].size == 2 * BSIZE && !Mapped(image.st, ROOTINO)
  {
    hide Building, Shows, FilesNeed, Means, Finished;
    var names, files := seq(62, _ => name), seq(62, _ => []);
    image := new Image();
    EmptyFiles(62);
    assert Need(DIRENT * 64) == 1;
    var ok := image.Build(names, files);
    assert ok;
    RootUnmapped(image.st, names, files);
  }

  /** mkfs with 207 files of one byte succeeds, but inode 208 holds bits of the bitmap. */
  method BuildLost(name: seq<byte>, b: byte) returns (image: Image)
    ensures !Complete(image.disk, seq(207, _ => name), seq(207, _ => [b]))
    ensures Sec(IBlock(208)) == BMAPSTART
    ensures InodeAt(image.disk, 208).kind == 0xffff && InodeAt(image.disk, 208).size == 0xffff_ffff
    ensures forall k | 0 <= k < 5 :: InodeAt(image.disk, 208).addrs[k] == 0xffff_ffff
  {
    hide Building, Shows, FilesNeed, Complete, Finished, Means, FirstBits, InodeAt;
    var names, files := seq(207, _ => name), seq(207, _ => [b]);
    image := new Image();
    OneByteFiles(207, b);
    assert Need(DIRENT * 209) == 4;
    var ok := image.Build(names, files);
    assert ok && image.freeblock == 257;
    LostBits(image.disk);
  }

  lemma {:induction false} OneByteFiles(n: nat, b: byte)
    ensures FilesNeed(seq(n, _ => [b])) == n
  {
    var files: seq<seq<byte>> := seq(n, _ => [b]);
    if n > 0 {
      OneByteFiles(n - 1, b);
      assert files[..n - 1] == seq(n - 1, _ => [b]);
    }
  }

  lemma LostBits(d: Disk)
    requires FirstBits(d[BMAPSTART], 257)
    ensures Sec(IBlock(208)) == BMAPSTART
    ensures InodeAt(d, 208).kind == 0xffff && InodeAt(d, 208).size == 0xffff_ffff
    ensures forall k | 0 <= k < 5 :: InodeAt(d, 208).addrs[k] == 0xffff_ffff
  {
    assert forall j | 0 <= j < 32 :: d[BMAPSTART][j] == 255;
  }
}
