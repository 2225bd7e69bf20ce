/**
  Reading a finished image from its sectors alone, the way the kernel will: the fields of an
  inode at their offsets (kernel/fs.h: struct dinode), its block numbers, and the bytes of its blocks.
 */
module MkfsRead {
  import opened Prelude
  import opened Words
  import opened FsState
  import opened DiskInode
  import opened MkfsState
  import opened Mkfs

  /** The sector and the offset of inode i. */
  function Home(d: Disk, i: nat): Sector
    requires i < LIMIT
  {
    d[INODESTART + i / IPB]
  }

  function Offset(i: nat): nat { i % IPB * 64 }

  /** The number of block bn of inode i. */
  function BlockOf(d: Disk, i: nat, bn: nat): nat
    requires i < LIMIT && bn < MAXFILE
  {
    if bn < 12 then Word(Home(d, i), Offset(i) + 12 + 4 * bn)
    else
      var indirect := Word(Home(d, i), Offset(i) + 60);
      if 0 < indirect < FSSIZE then Word(d[indirect], 4 * (bn - 12)) else 0
  }

  function ByteOf(d: Disk, i: nat, k: nat): byte
    requires i < LIMIT && k < MAXFILE * BSIZE
  {
    var b := BlockOf(d, i, k / BSIZE);
    if 0 < b < FSSIZE then d[b][k % BSIZE] else 0
  }

  /** Inode i has this type, one link, this size and these first bytes. */
  ghost predicate Reads(d: Disk, i: nat, kind: nat, size: nat, bytes: seq<byte>) {
    && i < LIMIT && |bytes| <= MAXFILE * BSIZE
    && Half(Home(d, i), Offset(i)) == kind && Half(Home(d, i), Offset(i) + 2) == 0
      && Half(Home(d, i), Offset(i) + 4) == 0
    && Half(Home(d, i), Offset(i) + 6) == 1 && Word(Home(d, i), Offset(i) + 8) == size
    && forall k: nat | k < |bytes| :: ByteOf(d, i, k) == bytes[k]
  }

  lemma InodeFields(d: Disk, s: Fs, i: nat)
    requires InodesShow(d, s, 0) && i in s.inodes && 0 < i < LIMIT && |s.inodes[i].addrs| == NDIRECT + 1
    ensures Half(Home(d, i), Offset(i)) == (if i == 1 then 1 else 2)
    ensures Half(Home(d, i), Offset(i) + 2) == 0 && Half(Home(d, i), Offset(i) + 4) == 0
    ensures Half(Home(d, i), Offset(i) + 6) == 1 && Word(Home(d, i), Offset(i) + 8) == s.inodes[i].size
    ensures forall k: nat | k <= 12 :: Word(Home(d, i), Offset(i) + 12 + 4 * k) == s.inodes[i].addrs[k]
  {
    hide Half, Word;
    InodeBlock(i);
    var din := InodeAt(d, i);
    assert din == OnDisk(i, s.inodes[i]);
    forall k: nat | k <= 12 ensures Word(Home(d, i), Offset(i) + 12 + 4 * k) == s.inodes[i].addrs[k] {
      assert din.addrs[k] == s.inodes[i].addrs[k];
    }
  }

  /** A byte read from the sectors is the byte of the file system the disk means. */
  lemma ByteBack(d: Disk, s: Fs, i: nat, k: nat)
    requires Means(d, s) && Inv(s) && i in s.inodes && 0 < i < LIMIT && k < MAXFILE * BSIZE
    ensures ByteOf(d, i, k) == ByteAt(s, i, k)
  {
    hide Half, Word;
    InodeFields(d, s, i);
    var bn := k / BSIZE;
    var a := Addr(s, i, bn);
    if bn >= NDIRECT && s.inodes[i].addrs[NDIRECT] != 0 {
      assert BlockShows(d, s, s.inodes[i].addrs[NDIRECT]);
    }
    if a != 0 {
      assert BlockShows(d, s, a);
    }
  }

  /** Every file and the root directory, read from the sectors. */
  ghost predicate Readable(d: Disk, names: seq<seq<byte>>, files: seq<seq<byte>>) {
    && Reads(d, 1, 1, RootSize(|Entries(names)|), Entries(names))
    && forall f: nat | f < |files| :: Reads(d, f + 2, 2, |files[f]|, files[f])
  }

  lemma BytesBack(d: Disk, s: Fs, i: nat, bytes: seq<byte>)
    requires Means(d, s) && Inv(s) && i in s.inodes && 0 < i < LIMIT && |bytes| <= MAXFILE * BSIZE
    requires forall k: nat | k < |bytes| :: ByteAt(s, i, k) == bytes[k]
    ensures Reads(d, i, if i == 1 then 1 else 2, s.inodes[i].size, bytes)
  {
    hide Held, Placed, Marked, ByteOf, ByteAt, Home, Offset, Half, Word, BlockShows;
    InodeFields(d, s, i);
    forall k: nat | k < |bytes| ensures ByteOf(d, i, k) == bytes[k] {
      ByteBack(d, s, i, k);
    }
  }

  lemma FileBack(d: Disk, s: Fs, i: nat, file: seq<byte>)
    requires Means(d, s) && Inv(s) && Holds(s, i, file) && 1 < i < LIMIT
    ensures Reads(d, i, 2, |file|, file)
  {
    hide Held, Placed, Marked, ByteOf, ByteAt, Reads, Means, Mapped, Tight;
    forall k: nat | k < |file| ensures ByteAt(s, i, k) == file[k] {
      assert Contents(s, i)[k] == file[k];
    }
    BytesBack(d, s, i, file);
  }

  /** A complete image can be read back from its sectors. */
  lemma ImageReads(d: Disk, names: seq<seq<byte>>, files: seq<seq<byte>>)
    requires Complete(d, names, files) && |files| + 2 <= LIMIT
    ensures Readable(d, names, files)
  {
    hide Inv, ByteAt, Entries, Reads, Means, Mapped, Holds;
    var s: Fs :| Means(d, s) && Finished(s, names, files);
    BytesBack(d, s, 1, Entries(names));
    forall f: nat | f < |files| ensures Reads(d, f + 2, 2, |files[f]|, files[f]) {
      assert Holds(s, f + 2, files[f]);
      FileBack(d, s, f + 2, files[f]);
    }
  }
}
