/**
  What the image builder (mkfs/mkfs.c) means by the blocks it writes.  It hands out blocks in
  order from a counter and writes the bitmap only at the end, so what an image means while it
  is being built is what it would mean if every block below the counter were marked used.
 */
module MkfsState {
  import opened Prelude
  import opened FsState
  import opened FsCode

  const ROOTINO: nat := 1
  const DIRSIZ: nat := 14
  const DIRENT: nat := 16

  /** Boot and superblock, then the log, then the blocks for NINODES inodes, then the bitmap. */
  const NINODES: nat := 200
  const NINODEBLOCKS: nat := NINODES / IPB + 1
  const INODESTART: nat := 2 + LOGSIZE
  const BMAPSTART: nat := INODESTART + NINODEBLOCKS
  const NMETA: nat := BMAPSTART + 1

  /** A directory entry: the inode number in two bytes, then the name, cut or padded to 14. */
  function Dirent(inum: nat, name: seq<byte>): (d: seq<byte>)
    ensures |d| == DIRENT && Inum(d) == inum % 65536
    ensures forall k: nat | k < DIRSIZ :: d[2 + k] == NameByte(name, k)
  {
    [(inum % 256) as byte, (inum / 256 % 256) as byte]
    + if |name| >= DIRSIZ then name[..DIRSIZ] else name + seq(DIRSIZ - |name|, _ => 0)
  }

  /** Byte k of a name in a directory entry: names are cut at 14 bytes and padded with zeros. */
  function NameByte(name: seq<byte>, k: nat): byte {
    if k < |name| then name[k] else 0
  }

  function Inum(d: seq<byte>): nat
    requires |d| == DIRENT
  {
    d[0] as nat + 256 * d[1] as nat
  }

  ghost function Bits(size: nat, used: nat): seq<bool> {
    seq(size, b requires 0 <= b < size => b < used)
  }

  /** The image as it will be once the blocks below fb are marked used. */
  ghost function View(s: Fs, fb: nat): Fs {
    s.(bitmap := Bits(s.size, fb))
  }

  /** Blocks that were never handed out still hold zeroes. */
  ghost predicate Blank(s: Fs, fb: nat) {
    forall b: nat | fb <= b < s.size :: b in s.blocks && b in s.ptrs && s.blocks[b] == Zeros() && s.ptrs[b] == NoPtrs()
  }

  ghost predicate Building(s: Fs, fb: nat) {
    Inv(View(s, fb)) && Blank(s, fb) && 0 < fb <= s.size
  }

  ghost predicate ChunkWritten(v: Fs, v': Fs, i: nat, pos: nat, part: seq<byte>) {
    && FileSystem.Wrote(v, v', i, pos, part) && FileSystem.AddrsKept(v, v', i) && pos < MAXFILE * BSIZE
    && OnlyAt(v, v', i, pos / BSIZE) && Addr(v', i, pos / BSIZE) != 0
  }

  /** n blocks that all hold v. */
  function Fill<T>(n: nat, v: T): (m: map<nat, T>)
    ensures forall b: nat :: b in m <==> b < n
    ensures forall b | b in m :: m[b] == v
  {
    if n == 0 then map[] else Fill(n - 1, v)[n - 1 := v]
  }

  /** The empty image: metadata blocks in use, everything zero. */
  ghost function Empty(size: nat, nmeta: nat): Fs {
    Fs(size, Bits(size, 0), Fill(size, Zeros()), Fill(size, NoPtrs()), map[], Fill(nmeta, Meta))
  }

  lemma EmptyBuilding(size: nat, nmeta: nat)
    requires 0 < nmeta <= size
    ensures Building(Empty(size, nmeta), nmeta)
  {
  }

  ghost function Fresh(s: Fs, i: nat): Fs {
    s.(inodes := s.inodes[i := Inode(0, seq(NDIRECT + 1, _ => 0))])
  }

  lemma FreshAddrs(s: Fs, i: nat)
    requires Inv(s) && i !in s.inodes
    ensures var s' := Fresh(s, i);
            && Shape(s') && (forall y: nat | y < MAXFILE :: Addr(s', i, y) == 0)
            && (forall x, y: nat | x in s.inodes && y < MAXFILE :: Addr(s', x, y) == Addr(s, x, y))
  {
  }

  /** A new inode is empty and mapped, and no other inode notices. */
  lemma FreshKeeps(s: Fs, i: nat)
    requires Inv(s) && i !in s.inodes
    ensures var s' := Fresh(s, i);
            && Inv(s') && Mapped(s', i) && Tight(s', i) && Contents(s', i) == []
            && (forall x | x in s.inodes :: (Mapped(s, x) <==> Mapped(s', x)) && (Tight(s, x) <==> Tight(s', x)))
            && (forall x | x in s.inodes && s.inodes[x].size <= MAXFILE * BSIZE :: Contents(s', x) == Contents(s, x))
  {
    hide Addr, ByteAt, Held, Placed, Marked;
    FreshAddrs(s, i);
    FreshInv(s, i);
    var s' := Fresh(s, i);
    forall x | x in s.inodes && s.inodes[x].size <= MAXFILE * BSIZE ensures Contents(s', x) == Contents(s, x) {
      FreshContents(s, i, x);
    }
  }

  lemma FreshInv(s: Fs, i: nat)
    requires Inv(s) && i !in s.inodes
    ensures Inv(Fresh(s, i))
  {
    hide Addr;
    FreshAddrs(s, i);
    assert Held(Fresh(s, i)) && Placed(Fresh(s, i));
  }

  lemma FreshContents(s: Fs, i: nat, x: nat)
    requires Inv(s) && i !in s.inodes && x in s.inodes && s.inodes[x].size <= MAXFILE * BSIZE
    ensures Shape(Fresh(s, i)) && Contents(Fresh(s, i), x) == Contents(s, x)
  {
    hide Addr, Held, Placed, Marked;
    FreshAddrs(s, i);
  }

  /** Handing out the next blank block is what balloc does to the view. */
  lemma NextDirect(s: Fs, fb: nat, i: nat, bn: nat)
    requires Building(s, fb) && fb < s.size && i in s.inodes && bn < NDIRECT && Addr(View(s, fb), i, bn) == 0
    ensures var s' := SetAddr(s, i, bn, fb).(owner := s.owner[fb := DataOf(i, bn)]);
            Building(s', fb + 1) && Grew(View(s, fb), View(s', fb + 1), i, bn, fb)
  {
    hide Held, Placed, Marked, Grew;
    var s' := SetAddr(s, i, bn, fb).(owner := s.owner[fb := DataOf(i, bn)]);
    assert View(s', fb + 1) == TakenDirect(View(s, fb), i, bn, fb);
    GrewDirect(View(s, fb), i, bn, fb);
    TakenDirectKeeps(View(s, fb), i, bn, fb);
  }

  lemma NextIndirect(s: Fs, fb: nat, i: nat, bn: nat)
    requires Building(s, fb) && fb < s.size && i in s.inodes && bn < MAXFILE && s.inodes[i].addrs[NDIRECT] == 0
    ensures var s' := SetAddr(s, i, NDIRECT, fb).(owner := s.owner[fb := IndirectOf(i)]);
            Building(s', fb + 1) && Grew(View(s, fb), View(s', fb + 1), i, bn, Addr(View(s, fb), i, bn))
  {
    hide Held, Placed, Marked, Grew, Addr;
    var s' := SetAddr(s, i, NDIRECT, fb).(owner := s.owner[fb := IndirectOf(i)]);
    assert View(s', fb + 1) == TakenIndirect(View(s, fb), i, fb);
    GrewIndirect(View(s, fb), i, bn, fb);
    TakenIndirectKeeps(View(s, fb), i, fb);
  }

  lemma NextEntry(s: Fs, fb: nat, i: nat, j: nat)
    requires Building(s, fb) && fb < s.size && i in s.inodes && j < NINDIRECT && s.inodes[i].addrs[NDIRECT] != 0
    requires Addr(View(s, fb), i, NDIRECT + j) == 0
    ensures s.inodes[i].addrs[NDIRECT] < fb
    ensures var s' := SetPtr(s, s.inodes[i].addrs[NDIRECT], j, fb).(owner := s.owner[fb := DataOf(i, NDIRECT + j)]);
            Building(s', fb + 1) && Grew(View(s, fb), View(s', fb + 1), i, NDIRECT + j, fb)
  {
    hide Placed, Grew, Addr;
    var p := s.inodes[i].addrs[NDIRECT];
    assert p in s.owner && View(s, fb).bitmap[p];
    var s' := SetPtr(s, p, j, fb).(owner := s.owner[fb := DataOf(i, NDIRECT + j)]);
    assert View(s', fb + 1) == TakenEntry(View(s, fb), i, j, fb);
    GrewEntry(View(s, fb), i, j, fb);
    TakenEntryKeeps(View(s, fb), i, j, fb);
  }

  lemma ViewGrewNothing(s: Fs, fb: nat, i: nat, bn: nat)
    requires Building(s, fb) && i in s.inodes && bn < MAXFILE
    ensures Shape(View(s, fb)) && Shape(s.(bitmap := View(s, fb).bitmap))
    ensures Addr(View(s, fb), i, bn) < s.size && Grew(View(s, fb), View(s, fb), i, bn, Addr(View(s, fb), i, bn))
    ensures bn < NDIRECT ==> Addr(View(s, fb), i, bn) == s.inodes[i].addrs[bn]
    ensures bn >= NDIRECT && s.inodes[i].addrs[NDIRECT] != 0 ==>
              s.inodes[i].addrs[NDIRECT] in s.ptrs
                && Addr(View(s, fb), i, bn) == s.ptrs[s.inodes[i].addrs[NDIRECT]][bn - NDIRECT]
    ensures bn >= NDIRECT && s.inodes[i].addrs[NDIRECT] == 0 ==> Addr(View(s, fb), i, bn) == 0
    ensures |s.inodes[i].addrs| == NDIRECT + 1 && s.inodes[i].addrs[NDIRECT] < s.size
    ensures forall b: nat | b < s.size :: b in s.ptrs && |s.ptrs[b]| == NINDIRECT && b in s.blocks
              && |s.blocks[b]| == BSIZE
  {
    AddrBound(View(s, fb), i, bn);
    GrewNothing(View(s, fb), i, bn);
  }

  /** Writing a chunk into the block just found. */
  lemma ChunkStored(v: Fs, s: Fs, fb: nat, i: nat, o: nat, data: seq<byte>, x: nat)
    requires Building(s, fb) && o < MAXFILE * BSIZE && Grew(v, View(s, fb), i, o / BSIZE, x) && x != 0
    requires data != [] && o % BSIZE + |data| <= BSIZE && o + |data| <= MAXFILE * BSIZE
    ensures x < fb && x in s.blocks && |s.blocks[x]| == BSIZE
    ensures var block := s.blocks[x];
            var s' := Stored(s, x, block[..o % BSIZE] + data + block[o % BSIZE + |data|..]);
            && Building(s', fb) && FileSystem.Wrote(v, View(s', fb), i, o, data)
              && FileSystem.AddrsKept(v, View(s', fb), i)
            && OnlyAt(v, View(s', fb), i, o / BSIZE) && Addr(View(s', fb), i, o / BSIZE) == x && s'.size == s.size
              && s'.inodes == s.inodes
  {
    hide Placed, Addr;
    assert x in s.owner && View(s, fb).bitmap[x];
    var block := s.blocks[x];
    var next := block[..o % BSIZE] + data + block[o % BSIZE + |data|..];
    var s' := Stored(s, x, next);
    assert View(s', fb) == Stored(View(s, fb), x, next);
    WriteChunk(v, View(s, fb), i, o, data);
  }

  // ---------------------------------------------------------------------
  // How many blocks a file takes

  /** Data blocks for n bytes, and the indirect block if there are more than NDIRECT. */
  function Need(n: nat): nat {
    (n + BSIZE - 1) / BSIZE + if n > NDIRECT * BSIZE then 1 else 0
  }

  /** The blocks of all the files. */
  function FilesNeed(files: seq<seq<byte>>): nat {
    if files == [] then 0 else FilesNeed(files[..|files| - 1]) + Need(|files[|files| - 1]|)
  }

  lemma NeedGrows(m: nat, n: nat)
    requires m <= n
    ensures Need(m) <= Need(n)
  {
  }

  /** One more chunk takes a data block at a block boundary, and the indirect block at the first indirect one. */
  lemma NeedStep(e: nat, n: nat)
    requires 0 < n && e % BSIZE + n <= BSIZE
    ensures Need(e + n) == Need(e) + (if e % BSIZE == 0 then 1 else 0)
              + (if e / BSIZE >= NDIRECT && e <= NDIRECT * BSIZE then 1 else 0)
  {
    var q, m := e / BSIZE, e % BSIZE;
    assert e == q * BSIZE + m;
    assert (e + n + BSIZE - 1) / BSIZE == q + 1;
    assert (e + BSIZE - 1) / BSIZE == if m == 0 then q else q + 1;
  }

  /** The indirect block is there exactly for a file that needs it. */
  ghost predicate IndirectFor(v: Fs, i: nat, size: nat) {
    i in v.inodes && |v.inodes[i].addrs| == NDIRECT + 1 && (v.inodes[i].addrs[NDIRECT] != 0 <==> size > NDIRECT * BSIZE)
  }

  /** The blocks that are still missing for block bn of inode i. */
  ghost function Missing(v: Fs, i: nat, bn: nat): nat
    requires Shape(v) && i in v.inodes && bn < MAXFILE
  {
    (if Addr(v, i, bn) == 0 then 1 else 0) + (if bn >= NDIRECT && v.inodes[i].addrs[NDIRECT] == 0 then 1 else 0)
  }

  /** An indirect entry needs both blocks, its own block or none; a new indirect block is empty. */
  lemma MissingEntry(s: Fs, fb: nat, i: nat, j: nat)
    requires Building(s, fb) && i in s.inodes && j < NINDIRECT
    ensures fb < s.size ==> fb in s.ptrs && s.ptrs[fb] == NoPtrs()
    ensures Shape(View(s, fb)) && |s.inodes[i].addrs| == NDIRECT + 1
    ensures var p := s.inodes[i].addrs[NDIRECT];
            && (p == 0 ==> Missing(View(s, fb), i, NDIRECT + j) == 2)
            && (p != 0 ==> && p in s.ptrs && j < |s.ptrs[p]|
                           && Missing(View(s, fb), i, NDIRECT + j) == if s.ptrs[p][j] == 0 then 1 else 0)
  {
  }

  /** In the middle of an append, exactly the blocks the next chunk needs anew are missing. */
  lemma MissingIs(v: Fs, b: Fs, i: nat, off: nat, src: seq<byte>, tot: nat)
    requires FileSystem.Progress(v, b, i, off, src, tot) && tot < |src| && off + tot < MAXFILE * BSIZE
    requires off == v.inodes[i].size && Mapped(v, i) && Tight(v, i) && IndirectFor(b, i, off + tot)
    ensures var e := off + tot;
            Missing(b, i, e / BSIZE)
              == (if e % BSIZE == 0 then 1 else 0) + (if e / BSIZE >= NDIRECT && e <= NDIRECT * BSIZE then 1 else 0)
  {
    hide Held, Placed, Marked, Addr, ByteAt, FileSystem.Wrote;
    var e := off + tot;
    var bn := e / BSIZE;
    assert e == bn * BSIZE + e % BSIZE;
    if e % BSIZE == 0 {
      assert Addr(b, i, bn) == Addr(v, i, bn) == 0;
    } else {
      assert tot == 0 && Addr(b, i, bn) == Addr(v, i, bn) != 0;
    }
  }

  /** So the next chunk costs what the growth of the file needs. */
  lemma AppendCost(v: Fs, b: Fs, i: nat, off: nat, src: seq<byte>, tot: nat, n: nat, end: nat)
    requires FileSystem.Progress(v, b, i, off, src, tot) && tot < |src| && off + tot < MAXFILE * BSIZE
    requires off == v.inodes[i].size && Mapped(v, i) && Tight(v, i) && IndirectFor(b, i, off + tot)
    requires 0 < n && (off + tot) % BSIZE + n <= BSIZE && off + tot + n <= end
    ensures Missing(b, i, (off + tot) / BSIZE) == Need(off + tot + n) - Need(off + tot)
    ensures Need(off + tot + n) <= Need(end)
    ensures off + tot > NDIRECT * BSIZE || (off + tot) / BSIZE >= NDIRECT <==> off + tot + n > NDIRECT * BSIZE
  {
    hide FileSystem.Progress, Mapped, Tight, Missing, Need;
    NeedStep(off + tot, n);
    NeedGrows(off + tot + n, end);
    MissingIs(v, b, i, off, src, tot);
  }

  /** Inode i holds exactly the bytes c, in mapped blocks, and has no block beyond them. */
  ghost predicate Holds(v: Fs, i: nat, c: seq<byte>) {
    && Shape(v) && i in v.inodes && v.inodes[i].size <= MAXFILE * BSIZE
    && Mapped(v, i) && Tight(v, i) && Contents(v, i) == c && IndirectFor(v, i, |c|)
  }

  lemma HoldsAppend(v: Fs, v': Fs, i: nat, c: seq<byte>, d: seq<byte>)
    requires Holds(v, i, c) && FileSystem.FileWritten(v, v', i, |c|, d)
    requires IndirectFor(v', i, |c| + |d|) && v'.inodes == v.inodes[i := v'.inodes[i]]
    ensures Holds(v', i, c + d)
    ensures forall x, e | x != i && Holds(v, x, e) :: Holds(v', x, e)
  {
    hide Held, Placed, Marked, Addr, Contents, Mapped, Tight;
    assert FileSystem.Spliced(c, |c|, d) == c + d;
  }

  lemma HoldsFresh(v: Fs, i: nat)
    requires Inv(v) && i !in v.inodes
    ensures Holds(Fresh(v, i), i, [])
    ensures forall x, e | Holds(v, x, e) :: Holds(Fresh(v, i), x, e)
  {
    hide Held, Placed, Marked, Addr, Contents, Mapped, Tight;
    FreshKeeps(v, i);
  }

  const DOT: byte := 46

  /** The root directory: ".", ".." and one entry per file, whose inode numbers follow the order. */
  function Entries(names: seq<seq<byte>>): (d: seq<byte>)
    ensures |d| == DIRENT * (|names| + 2)
  {
    if names == [] then Dirent(ROOTINO, [DOT]) + Dirent(ROOTINO, [DOT, DOT])
    else Entries(names[..|names| - 1]) + Dirent(|names| + 1, names[|names| - 1])
  }

  /** Entry k + 2 of the root directory: inode number k + 2 in two bytes, then the bytes of the name of file k. */
  lemma EntryOf(names: seq<seq<byte>>, k: nat)
    requires k < |names|
    ensures var d, o := Entries(names), DIRENT * (k + 2);
            && d[o] as nat + 256 * d[o + 1] as nat == (k + 2) % 65536
            && forall j: nat | j < DIRSIZ :: d[o + 2 + j] == if j < |names[k]| then names[k][j] else 0
  {
    hide Dirent, Entries;
    EntrySlice(names, k);
    var d, o, e := Entries(names), DIRENT * (k + 2), Dirent(k + 2, names[k]);
    assert d[o] == e[0] && d[o + 1] == e[1];
    forall j: nat | j < DIRSIZ ensures d[o + 2 + j] == if j < |names[k]| then names[k][j] else 0 {
      assert d[o..o + DIRENT][2 + j] == e[2 + j] == NameByte(names[k], j);
    }
  }

  /** The first two entries are "." and "..", both of the root. */
  lemma {:induction false} DotEntries(names: seq<seq<byte>>)
    ensures var d := Entries(names);
            && d[0] as nat + 256 * d[1] as nat == ROOTINO && d[2] == DOT && d[3] == 0
            && d[16] as nat + 256 * d[17] as nat == ROOTINO && d[18] == DOT && d[19] == DOT && d[20] == 0
  {
    if names == [] {
      var one, two := Dirent(ROOTINO, [DOT]), Dirent(ROOTINO, [DOT, DOT]);
      assert one[2 + 0] == NameByte([DOT], 0) && one[2 + 1] == NameByte([DOT], 1);
      assert two[2 + 0] == NameByte([DOT, DOT], 0) && two[2 + 1] == NameByte([DOT, DOT], 1)
        && two[2 + 2] == NameByte([DOT, DOT], 2);
    } else {
      DotEntries(names[..|names| - 1]);
    }
  }

  lemma {:induction false} EntrySlice(names: seq<seq<byte>>, k: nat)
    requires k < |names|
    ensures Entries(names)[DIRENT * (k + 2)..DIRENT * (k + 3)] == Dirent(k + 2, names[k])
  {
    var front := names[..|names| - 1];
    if k < |names| - 1 {
      EntrySlice(front, k);
      assert Entries(names)[DIRENT * (k + 2)..DIRENT * (k + 3)] == Entries(front)[DIRENT * (k + 2)..DIRENT * (k + 3)];
    }
  }

  /** The first n files and their directory entries are in the image. */
  ghost predicate Stocked(v: Fs, names: seq<seq<byte>>, files: seq<seq<byte>>) {
    && |names| == |files| && Inv(v) && Holds(v, ROOTINO, Entries(names))
    && (forall i: nat :: i in v.inodes <==> 1 <= i < |files| + 2)
    && (forall k: nat | k < |files| :: Holds(v, k + 2, files[k]))
  }

  /** mkfs rounds the root directory's size up, always past the next block boundary. */
  function RootSize(off: nat): nat { (off / BSIZE + 1) * BSIZE }

  /** The blocks that the directory and the files take. */
  function Total(names: seq<seq<byte>>, files: seq<seq<byte>>): nat {
    Need(DIRENT * (|names| + 2)) + FilesNeed(files)
  }

  /** Everything fits: each file and the directory within the largest size, and all their blocks on the disk. */
  predicate Room(names: seq<seq<byte>>, files: seq<seq<byte>>) {
    && (forall k | 0 <= k < |files| :: |files[k]| <= MAXFILE * BSIZE) && DIRENT * (|names| + 2) <= MAXFILE * BSIZE
    && NMETA + Total(names, files) <= FSSIZE
  }

  lemma NoBytes()
    ensures Need(0) == 0
  {
  }

  lemma RootNeed(names: seq<seq<byte>>, files: seq<seq<byte>>)
    ensures Total([], []) == 1 && Total(names, files) >= 1
  {
    NeedGrows(32, DIRENT * (|names| + 2));
  }

  lemma {:induction false} FilesNeedGrows(files: seq<seq<byte>>, k: nat)
    requires k <= |files|
    ensures FilesNeed(files[..k]) <= FilesNeed(files)
    decreases |files| - k
  {
    if k == |files| {
      assert files[..k] == files;
    } else {
      FilesNeedGrows(files, k + 1);
      assert files[..k + 1][..k] == files[..k];
    }
  }

  lemma TotalMore(names: seq<seq<byte>>, files: seq<seq<byte>>, k: nat)
    requires |names| == |files| && k < |files|
    ensures Total(names[..k + 1], files[..k + 1])
         == Total(names[..k], files[..k]) + Need(DIRENT * (k + 3)) - Need(DIRENT * (k + 2)) + Need(|files[k]|)
    ensures Total(names[..k + 1], files[..k + 1]) <= Total(names, files)
  {
    hide Need;
    assert files[..k + 1][..k] == files[..k];
    FilesNeedGrows(files, k + 1);
    NeedGrows(DIRENT * (k + 3), DIRENT * (|names| + 2));
  }

  lemma BuildingFits(s: Fs, fb: nat)
    requires Building(s, fb)
    ensures fb <= s.size
  {
  }

  lemma AppendReady(s: Fs, fb: nat, i: nat, c: seq<byte>)
    requires Holds(View(s, fb), i, c)
    ensures Shape(View(s, fb)) && i in s.inodes && s.inodes[i].size == |c| <= MAXFILE * BSIZE
    ensures Mapped(View(s, fb), i) && Tight(View(s, fb), i) && IndirectFor(s, i, |c|)
  {
  }

  lemma IndirectView(s: Fs, fb: nat, i: nat, n: nat)
    requires IndirectFor(s, i, n)
    ensures IndirectFor(View(s, fb), i, n)
  {
  }

  /**
    What an image promises: block ownership, every file whole and mapped, the directory's
    entries in order.  The root has all blocks below its size exactly when its entries do
    not end on a block boundary, because its size is rounded up past the boundary.
   */
  ghost predicate Finished(s: Fs, names: seq<seq<byte>>, files: seq<seq<byte>>) {
    && |names| == |files| && Inv(s) && (forall i: nat :: i in s.inodes <==> 1 <= i < |files| + 2)
    && (forall k: nat | k < |files| :: Holds(s, k + 2, files[k]))
    && s.inodes[ROOTINO].size == RootSize(|Entries(names)|) && |Entries(names)| <= MAXFILE * BSIZE
    && (forall k: nat | k < |Entries(names)| :: ByteAt(s, ROOTINO, k) == Entries(names)[k])
    && (Mapped(s, ROOTINO) <==> |Entries(names)| % BSIZE != 0)
  }

  lemma RootFixed(v: Fs, names: seq<seq<byte>>, files: seq<seq<byte>>)
    requires Stocked(v, names, files)
    ensures ROOTINO in v.inodes && Finished(Resized(v, ROOTINO, RootSize(v.inodes[ROOTINO].size)), names, files)
  {
    hide Held, Placed, Marked, Addr, Entries, ByteAt;
    var c := Entries(names);
    var s := Resized(v, ROOTINO, RootSize(|c|));
    HoldsSize(v, ROOTINO, c);
    ResizedKeeps(v, ROOTINO, RootSize(|c|));
    forall k: nat | k < |files| ensures Holds(s, k + 2, files[k]) {
      assert Holds(v, k + 2, files[k]);
      assert Contents(s, k + 2) == Contents(v, k + 2);
    }
    forall k: nat | k < |c| ensures ByteAt(s, ROOTINO, k) == c[k] {
      assert Contents(v, ROOTINO)[k] == c[k];
    }
    RootMapped(v, names, files);
  }

  lemma RootMapped(v: Fs, names: seq<seq<byte>>, files: seq<seq<byte>>)
    requires Stocked(v, names, files)
    ensures var s := Resized(v, ROOTINO, RootSize(|Entries(names)|));
            Shape(s) && (Mapped(s, ROOTINO) <==> |Entries(names)| % BSIZE != 0)
  {
    hide Held, Placed, Marked, Addr, Entries;
    var n := |Entries(names)|;
    HoldsSize(v, ROOTINO, Entries(names));
    ResizedKeeps(v, ROOTINO, RootSize(n));
    var s := Resized(v, ROOTINO, RootSize(n));
    var last := n / BSIZE;
    if n % BSIZE != 0 {
      assert last < MAXFILE;
      assert forall bn: nat | bn < MAXFILE && bn * BSIZE < RootSize(n) :: bn * BSIZE < n;
    } else if last < MAXFILE {
      NothingBeyond(v, names, files, last);
      assert Addr(s, ROOTINO, last) == 0;
    }
  }

  /** The block right after a file that ends on a block boundary is not mapped. */
  lemma NothingBeyond(v: Fs, names: seq<seq<byte>>, files: seq<seq<byte>>, bn: nat)
    requires Stocked(v, names, files) && bn < MAXFILE && bn * BSIZE >= |Entries(names)|
    ensures Addr(v, ROOTINO, bn) == 0
  {
    HoldsSize(v, ROOTINO, Entries(names));
  }

  /** With 62 files the entries fill the first block, and the root's second block is missing. */
  lemma RootUnmapped(s: Fs, names: seq<seq<byte>>, files: seq<seq<byte>>)
    requires Finished(s, names, files) && |names| == 62
    ensures Shape(s) && ROOTINO in s.inodes && s.inodes[ROOTINO].size == 2 * BSIZE && !Mapped(s, ROOTINO)
  {
  }

  lemma {:induction false} EmptyFiles(n: nat)
    ensures FilesNeed(seq(n, _ => [])) == 0
  {
    var files: seq<seq<byte>> := seq(n, _ => []);
    if n > 0 {
      EmptyFiles(n - 1);
      assert files[..n - 1] == seq(n - 1, _ => []);
    }
  }

  lemma EntriesNone()
    ensures Entries([]) == Dirent(ROOTINO, [DOT]) + Dirent(ROOTINO, [DOT, DOT])
  {
  }

  lemma HoldsSize(v: Fs, i: nat, c: seq<byte>)
    requires Holds(v, i, c)
    ensures i in v.inodes && v.inodes[i].size == |c| <= MAXFILE * BSIZE
  {
  }

  lemma WrittenKeys(v: Fs, v': Fs, i: nat, off: nat, data: seq<byte>)
    requires FileSystem.FileWritten(v, v', i, off, data)
    ensures v'.inodes.Keys == v.inodes.Keys && Inv(v')
  {
  }

  lemma EntriesMore(names: seq<seq<byte>>, name: seq<byte>)
    ensures Entries(names + [name]) == Entries(names) + Dirent(|names| + 2, name)
  {
    assert (names + [name])[..|names|] == names;
  }

  lemma Appended(v: Fs, s: Fs, fb: nat, i: nat, off: nat, data: seq<byte>)
    requires Building(s, fb) && FileSystem.Progress(v, View(s, fb), i, off, data, |data|)
    requires off == v.inodes[i].size && off + |data| <= MAXFILE * BSIZE
    ensures i in s.inodes && s.inodes[i].size == off
    ensures var s' := Resized(s, i, off + |data|);
            Building(s', fb) && FileSystem.FileWritten(v, View(s', fb), i, off, data)
  {
    hide Held, Placed, Marked, Addr, FileSystem.Wrote, FileSystem.FileWritten;
    assert data[..|data|] == data;
    WrittenFile(v, View(s, fb), i, off, data);
    WrittenFacts(v, Resized(View(s, fb), i, off + |data|), i, off, data);
    assert View(Resized(s, i, off + |data|), fb) == Resized(View(s, fb), i, off + |data|);
  }
}
