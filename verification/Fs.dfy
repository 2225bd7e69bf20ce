/**
  Block allocation and inode contents (kernel/fs.c: balloc, bfree, bmap, readi, writei,
  itrunc; kernel/file.c: filewrite).  Copies to and from user memory succeed here.
  An in-memory inode stands for its on-disk copy as well: iupdate only logs its block.
 */
module FsCode {
  import opened Prelude
  import opened FsState

  /** Bitmap bits per block. */
  const BPB: nat := BSIZE * 8

  type pos = x: nat | x > 0 witness 1

  /** No free block is left. */
  ghost predicate Full(s: Fs) {
    forall b | 0 <= b < |s.bitmap| :: s.bitmap[b]
  }

  /** No block number changes, except perhaps the one for block bn of inode i. */
  ghost predicate OnlyAt(s: Fs, s': Fs, i: nat, bn: nat)
    requires Shape(s) && Shape(s') && s'.inodes.Keys == s.inodes.Keys
  {
    forall x, y: nat | x in s.inodes && y < MAXFILE && (x != i || y != bn) :: Addr(s', x, y) == Addr(s, x, y)
  }

  /** Block numbers only appear; the one for block bn of inode i is now a. */
  ghost predicate Grew(s: Fs, s': Fs, i: nat, bn: nat, a: nat) {
    && Inv(s) && Inv(s') && SameBytes(s, s') && i in s.inodes && bn < MAXFILE && Addr(s', i, bn) == a
    && s'.size == s.size
    && (forall x, y: nat | x in s.inodes && y < MAXFILE && Addr(s, x, y) != 0 :: Addr(s', x, y) == Addr(s, x, y))
    && OnlyAt(s, s', i, bn)
    && (s.inodes[i].addrs[NDIRECT] != 0 ==> s'.inodes[i].addrs[NDIRECT] == s.inodes[i].addrs[NDIRECT])
  }

  lemma GrewNothing(s: Fs, i: nat, bn: nat)
    requires Inv(s) && i in s.inodes && bn < MAXFILE
    ensures Grew(s, s, i, bn, Addr(s, i, bn))
  {
    hide Addr, Held, Placed, Marked;
  }

  lemma GrewDirect(s: Fs, i: nat, bn: nat, b: nat)
    requires Inv(s) && i in s.inodes && bn < NDIRECT && Addr(s, i, bn) == 0 && b < s.size && !s.bitmap[b]
    ensures Grew(s, TakenDirect(s, i, bn, b), i, bn, b)
  {
    hide Addr, Held, Placed, Marked;
    TakenDirectKeeps(s, i, bn, b);
    FreshBytes(s, TakenDirect(s, i, bn, b), i, bn, b, b);
  }

  lemma GrewIndirect(s: Fs, i: nat, bn: nat, b: nat)
    requires Inv(s) && i in s.inodes && bn < MAXFILE && s.inodes[i].addrs[NDIRECT] == 0 && b < s.size && !s.bitmap[b]
    ensures Grew(s, TakenIndirect(s, i, b), i, bn, Addr(s, i, bn))
  {
    hide Addr, Held, Placed, Marked;
    TakenIndirectKeeps(s, i, b);
    FreshBytes(s, TakenIndirect(s, i, b), i, 0, b, Addr(s, i, 0));
  }

  lemma GrewEntry(s: Fs, i: nat, j: nat, b: nat)
    requires Inv(s) && i in s.inodes && s.inodes[i].addrs[NDIRECT] != 0 && j < NINDIRECT
    requires Addr(s, i, NDIRECT + j) == 0 && b < s.size && !s.bitmap[b]
    ensures Grew(s, TakenEntry(s, i, j, b), i, NDIRECT + j, b)
  {
    hide Addr, Held, Placed, Marked;
    TakenEntryKeeps(s, i, j, b);
    FreshBytes(s, TakenEntry(s, i, j, b), i, NDIRECT + j, b, b);
  }

  lemma GrewTransitive(a: Fs, b: Fs, c: Fs, i: nat, bn: nat, x: nat, y: nat)
    requires Grew(a, b, i, bn, x) && Grew(b, c, i, bn, y)
    ensures Grew(a, c, i, bn, y)
  {
    hide Addr, Held, Placed, Marked;
  }

  lemma EntryAddr(s: Fs, i: nat, j: nat)
    requires Inv(s) && i in s.inodes && j < NINDIRECT
    ensures s.inodes[i].addrs[NDIRECT] < s.size && s.bitmap[0]
    ensures Addr(s, i, NDIRECT + j) == if s.inodes[i].addrs[NDIRECT] == 0 then 0
              else s.ptrs[s.inodes[i].addrs[NDIRECT]][j]
  {
  }

  // ---------------------------------------------------------------------
  // Every change is logged

  ghost predicate SameBlock(s: Fs, s': Fs, b: nat) {
    && (b in s.blocks <==> b in s'.blocks) && (b in s.blocks ==> s'.blocks[b] == s.blocks[b])
    && (b in s.ptrs <==> b in s'.ptrs) && (b in s.ptrs ==> s'.ptrs[b] == s.ptrs[b])
  }

  ghost predicate SameBit(s: Fs, s': Fs, b: nat) {
    b < |s.bitmap| == |s'.bitmap| && s'.bitmap[b] == s.bitmap[b]
  }

  /** Every block that changed is in the set, and so is the bitmap block of every bit that changed. */
  ghost predicate BlocksLogged(s: Fs, s': Fs, log: set<nat>, bmap: nat) {
    && s'.size == s.size && |s'.bitmap| == |s.bitmap|
    && (forall b: nat | b < s.size && !SameBlock(s, s', b) :: b in log)
    && (forall b: nat | b < |s.bitmap| && !SameBit(s, s', b) :: bmap + b / BPB in log)
  }

  /** The blocks of the inodes that changed are in the set too. */
  ghost predicate AllLogged(s: Fs, s': Fs, log: set<nat>, bmap: nat, inodes: nat) {
    && BlocksLogged(s, s', log, bmap) && s'.inodes.Keys == s.inodes.Keys
    && (forall i | i in s.inodes && s'.inodes[i] != s.inodes[i] :: inodes + i / IPB in log)
  }

  /** The log only grows, holds every changed block, and no inode but i has changed. */
  ghost predicate Noted(s: Fs, s': Fs, log: set<nat>, log': set<nat>, bmap: nat, i: nat) {
    && log <= log' && BlocksLogged(s, s', log', bmap)
    && i in s.inodes && i in s'.inodes && s'.inodes == s.inodes[i := s'.inodes[i]]
  }

  lemma NotedNothing(s: Fs, log: set<nat>, bmap: nat, i: nat)
    requires i in s.inodes
    ensures Noted(s, s, log, log, bmap, i)
  {
    forall b: nat | b < |s.bitmap| ensures SameBit(s, s, b) {
    }
  }

  lemma NotedTransitive(a: Fs, b: Fs, c: Fs, x: set<nat>, y: set<nat>, z: set<nat>, bmap: nat, i: nat)
    requires Noted(a, b, x, y, bmap, i) && Noted(b, c, y, z, bmap, i)
    ensures Noted(a, c, x, z, bmap, i)
  {
    forall k: nat | k < a.size && !SameBlock(a, c, k) ensures k in z {
      assert !SameBlock(a, b, k) || !SameBlock(b, c, k);
    }
    forall k: nat | k < |a.bitmap| && !SameBit(a, c, k) ensures bmap + k / BPB in z {
      assert !SameBit(a, b, k) || !SameBit(b, c, k);
    }
  }

  /** balloc logs the bitmap block and the zeroed block; what its caller does to inode i comes on top. */
  lemma TakenNoted(s: Fs, s': Fs, log: set<nat>, bmap: nat, i: nat, r: nat)
    requires r < |s.bitmap| && i in s.inodes && i in s'.inodes
    requires s' == Taken(s, r).(inodes := s.inodes[i := s'.inodes[i]], owner := s'.owner)
    ensures Noted(s, s', log, log + {bmap + r / BPB, r}, bmap, i)
  {
    forall b: nat | b < |s.bitmap| && b != r ensures SameBit(s, s', b) {
    }
  }

  lemma PtrNoted(s: Fs, s': Fs, log: set<nat>, bmap: nat, i: nat, p: nat)
    requires i in s.inodes && p in s.ptrs && p in s'.ptrs
    requires s' == s.(ptrs := s.ptrs[p := s'.ptrs[p]], owner := s'.owner)
    ensures Noted(s, s', log, log + {p}, bmap, i)
  {
    forall b: nat | b < |s.bitmap| ensures SameBit(s, s', b) {
    }
    assert s'.inodes == s.inodes[i := s'.inodes[i]];
  }

  lemma StoredNoted(s: Fs, s': Fs, log: set<nat>, bmap: nat, i: nat, b: nat)
    requires i in s.inodes && b in s.blocks && b in s'.blocks && s' == s.(blocks := s.blocks[b := s'.blocks[b]])
    ensures Noted(s, s', log, log + {b}, bmap, i)
  {
    forall k: nat | k < |s.bitmap| ensures SameBit(s, s', k) {
    }
    assert s'.inodes == s.inodes[i := s'.inodes[i]];
  }

  lemma FreedNoted(s: Fs, s': Fs, log: set<nat>, bmap: nat, i: nat, b: nat)
    requires i in s.inodes && b < |s.bitmap| && s' == s.(bitmap := s.bitmap[b := false])
    ensures Noted(s, s', log, log + {bmap + b / BPB}, bmap, i)
  {
    forall k: nat | k < |s.bitmap| && k != b ensures SameBit(s, s', k) {
    }
    assert s'.inodes == s.inodes[i := s'.inodes[i]];
  }

  lemma FreedMore(s: Fs, a: Fs, s': Fs, log: set<nat>, l: set<nat>, bmap: nat, i: nat, b: nat)
    requires Noted(s, a, log, l, bmap, i) && b < |a.bitmap| && s' == a.(bitmap := a.bitmap[b := false])
    ensures Noted(s, s', log, l + {bmap + b / BPB}, bmap, i)
  {
    FreedNoted(a, s', l, bmap, i, b);
    hide BlocksLogged;
    NotedTransitive(s, a, s', log, l, l + {bmap + b / BPB}, bmap, i);
  }

  /** Changes of inode i alone concern no block. */
  lemma InodeNoted(s: Fs, s': Fs, log: set<nat>, bmap: nat, i: nat)
    requires i in s.inodes && i in s'.inodes && s' == s.(inodes := s.inodes[i := s'.inodes[i]], owner := s'.owner)
    ensures Noted(s, s', log, log, bmap, i)
  {
    forall k: nat | k < |s.bitmap| ensures SameBit(s, s', k) {
    }
  }

  lemma FreedDirect(s: Fs, a: Fs, log: set<nat>, l: set<nat>, bmap: nat, i: nat, k: nat)
    requires Noted(s, a, log, l, bmap, i) && k < |a.inodes[i].addrs| && a.inodes[i].addrs[k] < |a.bitmap|
    ensures var b := a.inodes[i].addrs[k];
            Noted(s, SetAddr(a.(bitmap := a.bitmap[b := false]), i, k, 0), log, l + {bmap + b / BPB}, bmap, i)
  {
    hide BlocksLogged;
    var b := a.inodes[i].addrs[k];
    var f := a.(bitmap := a.bitmap[b := false]);
    FreedMore(s, a, f, log, l, bmap, i, b);
    InodeNoted(f, SetAddr(f, i, k, 0), l + {bmap + b / BPB}, bmap, i);
    NotedTransitive(s, f, SetAddr(f, i, k, 0), log, l + {bmap + b / BPB}, l + {bmap + b / BPB}, bmap, i);
  }

  /** iupdate completes it. */
  lemma NotedAll(s: Fs, s': Fs, log: set<nat>, log': set<nat>, bmap: nat, inodes: nat, i: nat)
    requires Noted(s, s', log, log', bmap, i)
    ensures AllLogged(s, s', log' + {inodes + i / IPB}, bmap, inodes)
  {
  }

  lemma NothingLogged(s: Fs, log: set<nat>, bmap: nat, inodes: nat)
    ensures AllLogged(s, s, log, bmap, inodes)
  {
    forall k: nat | k < |s.bitmap| ensures SameBit(s, s, k) {
    }
  }

  class FileSystem {
    var st: Fs
    const bmapstart: pos
    const inodestart: pos
    /** The blocks the current operation has logged, and the most any finished one has. */
    ghost var logged: set<nat>
    ghost var heaviest: nat
    /** The state in which the current operation began, and whether every finished one logged all it changed. */
    ghost var begun: Fs
    ghost var thorough: bool

    constructor (image: Fs, bmap: pos, inodes: pos)
      ensures st == image && bmapstart == bmap && inodestart == inodes && logged == {} && heaviest == 0
      ensures begun == image && thorough
    {
      st, bmapstart, inodestart, logged, heaviest := image, bmap, inodes, {}, 0;
      begun, thorough := image, true;
    }

    /** Finds the first free block, marks it used and zeroes it; 0 when the disk is full. */
    method Balloc() returns (r: nat)
      requires Shape(st) && st.bitmap[0]
      modifies this`st, this`logged
      ensures r == 0 ==> st == old(st) && logged == old(logged) && Full(st)
      ensures r != 0 ==>
                && r < old(st).size && !old(st).bitmap[r] && (forall b | 0 <= b < r :: old(st).bitmap[b])
                && st == Taken(old(st), r) && logged == old(logged) + {bmapstart + r / BPB, r}
    {
      var b := 0;
      while b < st.size
        invariant 0 <= b && b % BPB == 0 && st == old(st) && logged == old(logged)
        invariant forall x | 0 <= x < b && x < st.size :: st.bitmap[x]
      {
        var bi := 0;
        while bi < BPB && b + bi < st.size
          invariant 0 <= bi <= BPB && st == old(st) && logged == old(logged)
          invariant forall x | 0 <= x < b + bi && x < st.size :: st.bitmap[x]
        {
          if !st.bitmap[b + bi] {
            st := st.(bitmap := st.bitmap[b + bi := true]);
            logged := logged + {bmapstart + (b + bi) / BPB};
            st := st.(blocks := st.blocks[b + bi := Zeros()], ptrs := st.ptrs[b + bi := NoPtrs()]);   // bzero
            logged := logged + {b + bi};
            return b + bi;
          }
          bi := bi + 1;
        }
        b := b + BPB;
      }
      return 0;
    }

    /** Marks a used block free; "freeing free block" is excluded by the precondition. */
    method Bfree(b: nat)
      requires b < |st.bitmap| && st.bitmap[b]
      modifies this`st, this`logged
      ensures st == old(st).(bitmap := old(st).bitmap[b := false])
      ensures logged == old(logged) + {bmapstart + b / BPB}
    {
      st := st.(bitmap := st.bitmap[b := false]);
      logged := logged + {bmapstart + b / BPB};
    }

    /** The direct case of bmap. */
    method BmapDirect(i: nat, bn: nat) returns (addr: nat)
      requires Inv(st) && i in st.inodes && bn < NDIRECT
      modifies this`st, this`logged
      ensures Grew(old(st), st, i, bn, addr) && (addr == 0 ==> Full(st))
      ensures Addr(old(st), i, bn) != 0 ==> st == old(st) && logged == old(logged)
      ensures logged <= old(logged) + {bmapstart + addr / BPB, addr} && (0 in logged ==> 0 in old(logged))
      ensures Noted(old(st), st, old(logged), logged, bmapstart, i)
    {
      hide Held, Placed, Grew, Noted;
      ghost var s := st;
      addr := st.inodes[i].addrs[bn];
      GrewNothing(s, i, bn);
      NotedNothing(s, logged, bmapstart, i);
      if addr == 0 {
        addr := Balloc();
        if addr == 0 {
          return;
        }
        GrewDirect(s, i, bn, addr);
        st := SetAddr(st, i, bn, addr);
        st := st.(owner := st.owner[addr := DataOf(i, bn)]);
        assert st == TakenDirect(s, i, bn, addr);
        TakenNoted(s, st, old(logged), bmapstart, i, addr);
      }
    }

    /** The indirect block of an inode, allocated if there is none yet; 0 when the disk is full. */
    method LoadIndirect(i: nat, ghost bn: nat) returns (p: nat)
      requires Inv(st) && i in st.inodes && bn < MAXFILE
      modifies this`st, this`logged
      ensures Grew(old(st), st, i, bn, Addr(old(st), i, bn)) && p == st.inodes[i].addrs[NDIRECT]
      ensures p == 0 ==> st == old(st) && logged == old(logged) && Full(st)
      ensures old(st).inodes[i].addrs[NDIRECT] != 0 ==> st == old(st) && logged == old(logged)
      ensures logged <= old(logged) + {bmapstart + p / BPB, p} && (0 in logged ==> 0 in old(logged))
      ensures Noted(old(st), st, old(logged), logged, bmapstart, i)
    {
      hide Held, Placed, Grew, Addr, Noted;
      ghost var s := st;
      GrewNothing(s, i, bn);
      NotedNothing(s, logged, bmapstart, i);
      p := st.inodes[i].addrs[NDIRECT];
      if p == 0 {
        p := Balloc();
        if p == 0 {
          return;
        }
        GrewIndirect(s, i, bn, p);
        st := SetAddr(st, i, NDIRECT, p);
        st := st.(owner := st.owner[p := IndirectOf(i)]);
        assert st == TakenIndirect(s, i, p);
        TakenNoted(s, st, old(logged), bmapstart, i, p);
      }
    }

    /** The entry of an indirect block, allocated if it is empty. */
    method LoadEntry(i: nat, j: nat) returns (addr: nat)
      requires Inv(st) && i in st.inodes && j < NINDIRECT && st.inodes[i].addrs[NDIRECT] != 0
      modifies this`st, this`logged
      ensures Grew(old(st), st, i, NDIRECT + j, addr) && (addr == 0 ==> Full(st))
      ensures Addr(old(st), i, NDIRECT + j) != 0 ==> st == old(st) && logged == old(logged)
      ensures logged <= old(logged) + {bmapstart + addr / BPB, addr, old(st).inodes[i].addrs[NDIRECT]}
      ensures 0 in logged ==> 0 in old(logged)
      ensures Noted(old(st), st, old(logged), logged, bmapstart, i)
    {
      hide Held, Placed, Grew, Addr, Noted;
      ghost var s := st;
      GrewNothing(s, i, NDIRECT + j);
      EntryAddr(s, i, j);
      NotedNothing(s, logged, bmapstart, i);
      var p := st.inodes[i].addrs[NDIRECT];
      addr := st.ptrs[p][j];
      if addr == 0 {
        addr := Balloc();
        if addr != 0 {
          GrewEntry(s, i, j, addr);
          FreeUnheld(s, addr);
          ghost var t, l := st, logged;
          assert t.inodes == s.inodes[i := s.inodes[i]];
          TakenNoted(s, t, old(logged), bmapstart, i, addr);
          st := SetPtr(st, p, j, addr);
          logged := logged + {p};
          st := st.(owner := st.owner[addr := DataOf(i, NDIRECT + j)]);
          assert st == TakenEntry(s, i, j, addr);
          PtrNoted(t, st, l, bmapstart, i, p);
          NotedTransitive(s, t, st, old(logged), l, logged, bmapstart, i);
        }
      }
    }

    /**
      bmap: the disk block of block bn of inode i, allocated if there is none; 0 when the
      disk is full.  No byte of any inode changes.
     */
    method Bmap(i: nat, bn: nat) returns (addr: nat)
      requires Inv(st) && i in st.inodes && bn < MAXFILE
      modifies this`st, this`logged
      ensures Grew(old(st), st, i, bn, addr) && (addr == 0 ==> Full(st))
      ensures Addr(old(st), i, bn) != 0 ==> st == old(st) && logged == old(logged) && addr == Addr(st, i, bn)
      ensures st.size <= BPB ==> logged <= old(logged) + {bmapstart, addr, st.inodes[i].addrs[NDIRECT]}
      ensures 0 in logged ==> 0 in old(logged)
      ensures Noted(old(st), st, old(logged), logged, bmapstart, i)
    {
      hide Held, Placed, Addr, Noted;
      ghost var s := st;
      if bn < NDIRECT {
        addr := BmapDirect(i, bn);
        AddrSmall(st, i, bn);
      } else {
        EntryAddr(s, i, bn - NDIRECT);
        var p := LoadIndirect(i, bn);
        if p == 0 {
          return 0;
        }
        ghost var mid, l := st, logged;
        addr := LoadEntry(i, bn - NDIRECT);
        NotedTransitive(s, mid, st, old(logged), l, logged, bmapstart, i);
        GrewTransitive(s, mid, st, i, bn, Addr(s, i, bn), addr);
        AddrSmall(st, i, bn);
      }
    }

    /** The next chunk of a transfer: to the end of the block or of the request. */
    static function Chunk(off: nat, left: nat): (m: nat)
      requires left > 0
      ensures 0 < m <= left && off % BSIZE + m <= BSIZE
    {
      if left < BSIZE - off % BSIZE then left else BSIZE - off % BSIZE
    }

    /** One round of readi: the bytes of one block, or nothing if no block can be had. */
    method ReadSome(i: nat, o: nat, left: nat) returns (chunk: seq<byte>)
      requires Inv(st) && i in st.inodes && left > 0 && o + left <= MAXFILE * BSIZE
      modifies this`st, this`logged
      ensures Inv(st) && SameBytes(old(st), st) && |chunk| <= left
      ensures chunk == [] ==> Full(st)
      ensures Addr(old(st), i, o / BSIZE) != 0 ==> st == old(st) && logged == old(logged) && chunk != []
      ensures forall k | o <= k < o + |chunk| :: chunk[k - o] == ByteAt(st, i, k)
      ensures Noted(old(st), st, old(logged), logged, bmapstart, i)
    {
      hide Held, Placed, Marked, Addr, Noted;
      var addr := Bmap(i, o / BSIZE);
      if addr == 0 {
        return [];
      }
      var m := Chunk(o, left);
      ReadChunk(st, i, o, m);
      chunk := st.blocks[addr][o % BSIZE..o % BSIZE + m];
    }

    /**
      readi: the bytes of inode i from off on, at most n of them.  When every block below
      the size is mapped, all of them are returned and nothing is allocated.
     */
    method Readi(i: nat, off: nat, n: nat) returns (data: seq<byte>)
      requires Inv(st) && i in st.inodes && st.inodes[i].size <= MAXFILE * BSIZE && off < UINT && n < UINT
      modifies this`st, this`logged
      ensures Inv(st) && SameBytes(old(st), st)
      ensures var size := old(st).inodes[i].size;
              var want := if off > size || off + n >= UINT then 0 else if off + n > size then size - off else n;
              && |data| <= want && (|data| < want ==> Full(st))
              && (want > 0 ==> data == Contents(old(st), i)[off..off + |data|])
              && (Mapped(old(st), i) ==> |data| == want && st == old(st) && logged == old(logged))
      ensures Noted(old(st), st, old(logged), logged, bmapstart, i)
    {
      hide Inv, Addr, ByteAt, Noted;
      ghost var s := st;
      InvShape(s);
      NotedNothing(s, logged, bmapstart, i);
      var size := st.inodes[i].size;
      data := [];
      if off > size || off + n >= UINT {
        return;
      }
      var n' := if off + n > size then size - off else n;
      var tot := 0;
      while tot < n'
        invariant 0 <= tot <= n' && |data| == tot && Inv(st) && Shape(st) && SameBytes(s, st)
        invariant forall k | off <= k < off + tot :: data[k - off] == ByteAt(s, i, k)
        invariant Mapped(s, i) ==> st == s && logged == old(logged)
        invariant Noted(s, st, old(logged), logged, bmapstart, i)
      {
        assert (off + tot) / BSIZE < MAXFILE && (off + tot) / BSIZE * BSIZE < size;
        ghost var b, l := st, logged;
        var chunk := ReadSome(i, off + tot, n' - tot);
        NotedTransitive(s, b, st, old(logged), l, logged, bmapstart, i);
        InvShape(st);
        if chunk == [] {
          break;
        }
        data := data + chunk;
        tot := tot + |chunk|;
      }
      assert data == Contents(s, i)[off..off + tot];
    }

    /** What the bytes are after data has been written at off of inode i. */
    static ghost predicate Wrote(s: Fs, s': Fs, i: nat, off: nat, data: seq<byte>) {
      && Inv(s) && Inv(s') && s'.inodes.Keys == s.inodes.Keys
      && (forall x, k: nat | x in s.inodes && k < MAXFILE * BSIZE ::
            ByteAt(s', x, k) == if x == i && off <= k < off + |data| then data[k - off] else ByteAt(s, x, k))
    }

    /** Block numbers of s are still there in s'. */
    static ghost predicate AddrsKept(s: Fs, s': Fs, i: nat)
      requires Shape(s) && Shape(s')
    {
      && s'.inodes.Keys == s.inodes.Keys && s'.size == s.size && i in s.inodes
      && (forall x | x in s.inodes :: s'.inodes[x].size == s.inodes[x].size)
      && (forall x, y: nat | x in s.inodes && y < MAXFILE
        && (Addr(s, x, y) != 0 || x != i) :: Addr(s', x, y) == Addr(s, x, y))
      && (s.inodes[i].addrs[NDIRECT] != 0 ==> s'.inodes[i].addrs[NDIRECT] == s.inodes[i].addrs[NDIRECT])
    }

    /** One round of writei: as much of src as fits in one block, or nothing if no block can be had. */
    method WriteSome(i: nat, o: nat, src: seq<byte>) returns (m: nat)
      requires Inv(st) && i in st.inodes && src != [] && o + |src| <= MAXFILE * BSIZE
      modifies this`st, this`logged
      ensures Inv(st) && i in st.inodes
      ensures Wrote(old(st), st, i, o, if m <= |src| then src[..m] else []) && AddrsKept(old(st), st, i)
      ensures OnlyAt(old(st), st, i, o / BSIZE)
      ensures m == (if Addr(st, i, o / BSIZE) == 0 then 0 else Chunk(o, |src|)) && (m == 0 ==> Full(st))
      ensures st.size <= BPB ==>
                logged <= old(logged) + {bmapstart, Addr(st, i, o / BSIZE), st.inodes[i].addrs[NDIRECT]}
      ensures 0 in logged ==> 0 in old(logged)
      ensures Noted(old(st), st, old(logged), logged, bmapstart, i)
    {
      hide Held, Placed, Marked, Addr, Noted;
      ghost var s := st;
      var addr := Bmap(i, o / BSIZE);
      if addr == 0 {
        return 0;
      }
      m := Chunk(o, |src|);
      ghost var b, l := st, logged;
      WriteChunk(s, b, i, o, src[..m]);
      var block := st.blocks[addr];
      st := st.(blocks := st.blocks[addr := block[..o % BSIZE] + src[..m] + block[o % BSIZE + m..]]);
      logged := logged + {addr};
      assert st == Stored(b, addr, block[..o % BSIZE] + src[..m] + block[o % BSIZE + m..]);
      StoredNoted(b, st, l, bmapstart, i, addr);
      NotedTransitive(s, b, st, old(logged), l, logged, bmapstart, i);
    }

    /** The bytes of a file after data is written at off <= |c|. */
    static function Spliced(c: seq<byte>, off: nat, data: seq<byte>): seq<byte>
      requires off <= |c|
    {
      c[..off] + data + if off + |data| <= |c| then c[off + |data|..] else []
    }

    /** writei's size update and the effect of the whole call on inode i and the others. */
    static ghost predicate FileWritten(s: Fs, s': Fs, i: nat, off: nat, data: seq<byte>) {
      && Inv(s) && Inv(s') && i in s.inodes && s'.inodes.Keys == s.inodes.Keys && s'.size == s.size
      && off <= s.inodes[i].size <= MAXFILE * BSIZE && s'.inodes[i].size <= MAXFILE * BSIZE
      && Contents(s', i) == Spliced(Contents(s, i), off, data)
      && OthersKept(s, s', i) && MapKept(s, s', i)
    }

    static ghost predicate OthersKept(s: Fs, s': Fs, i: nat)
      requires Shape(s) && Shape(s') && s'.inodes.Keys == s.inodes.Keys
    {
      forall x | x in s.inodes && x != i ::
        && s'.inodes[x].size == s.inodes[x].size
        && (s.inodes[x].size <= MAXFILE * BSIZE ==> Contents(s', x) == Contents(s, x))
    }

    /** Mapped and tight files stay so. */
    static ghost predicate MapKept(s: Fs, s': Fs, i: nat) {
      && Shape(s) && Shape(s') && i in s.inodes && s'.inodes.Keys == s.inodes.Keys
      && (Mapped(s, i) ==> Mapped(s', i)) && (Tight(s, i) ==> Tight(s', i))
      && (forall x | x in s.inodes && x != i :: Mapped(s, x) <==> Mapped(s', x))
      && (forall x | x in s.inodes && x != i :: Tight(s, x) <==> Tight(s', x))
    }

    /** The first tot bytes of src are in their blocks; the size is not yet changed. */
    static ghost predicate Progress(s: Fs, s': Fs, i: nat, off: nat, src: seq<byte>, tot: nat) {
      && tot <= |src| && Inv(s) && Inv(s') && i in s.inodes && Wrote(s, s', i, off, src[..tot]) && AddrsKept(s, s', i)
      && Reaches(s', i, off, tot) && OnlyReached(s, s', i, off, tot) && (0 < tot < |src| ==> (off + tot) % BSIZE == 0)
    }

    /** What writei has logged besides its inode, when it writes at most three blocks' length. */
    ghost predicate Small(before: set<nat>, i: nat, off: nat, n: nat)
      reads this
    {
      && Shape(st) && i in st.inodes
      && (st.size <= BPB && n <= 3 * BSIZE ==> logged <= before + {bmapstart} + WriteSet(st, i, off))
      && (0 in logged ==> 0 in before)
    }

    /** The loop of writei. */
    method WriteBlocks(i: nat, off: nat, src: seq<byte>) returns (tot: nat)
      requires Inv(st) && i in st.inodes && off + |src| <= MAXFILE * BSIZE
      modifies this`st, this`logged
      ensures Inv(st) && i in st.inodes && Progress(old(st), st, i, off, src, tot) && (tot < |src| ==> Full(st))
      ensures Small(old(logged), i, off, |src|)
      ensures Noted(old(st), st, old(logged), logged, bmapstart, i)
    {
      hide Inv, Addr, Wrote, AddrsKept, Reaches, WriteSet, OnlyAt, OnlyReached, Noted;
      ghost var s := st;
      InvShape(s);
      NotedNothing(s, logged, bmapstart, i);
      tot := 0;
      ProgressNone(s, i, off, src);
      while tot < |src|
        invariant tot <= |src| && Progress(s, st, i, off, src, tot) && Shape(st) && i in st.inodes
        invariant Small(old(logged), i, off, |src|) && Noted(s, st, old(logged), logged, bmapstart, i)
      {
        ghost var b, l := st, logged;
        var m := WriteSome(i, off + tot, src[tot..]);
        NotedTransitive(s, b, st, old(logged), l, logged, bmapstart, i);
        InvShape(st);
        WriteSetGrows(b, st, i, off, tot, |src|);
        if m == 0 {
          ProgressMore(s, b, st, i, off, src, tot, 0);
          break;
        }
        ProgressMore(s, b, st, i, off, src, tot, m);
        tot := tot + m;
      }
    }

    /**
      writei: -1 for an offset past the end or a file that would be too big; otherwise the
      bytes of src that found a block are spliced into the contents at off.
     */
    method Writei(i: nat, off: nat, src: seq<byte>) returns (tot: int)
      requires Inv(st) && i in st.inodes && st.inodes[i].size <= MAXFILE * BSIZE && off < UINT && |src| < UINT
      modifies this`st, this`logged
      ensures tot == -1 <==> off > old(st).inodes[i].size || off + |src| >= UINT || off + |src| > MAXFILE * BSIZE
      ensures tot == -1 ==> st == old(st) && logged == old(logged)
      ensures tot != -1 ==> Small(old(logged) + {inodestart + i / IPB}, i, off, |src|)
      ensures tot != -1 ==> old(logged) <= logged && AllLogged(old(st), st, logged, bmapstart, inodestart)
      ensures tot != -1 ==>
                0 <= tot <= |src| && (tot < |src| ==> Full(st)) && FileWritten(old(st), st, i, off, src[..tot])
    {
      hide Inv, Addr, Wrote, AddrsKept, Reaches, WriteSet, FileWritten, MapKept, OnlyReached, BlocksLogged, AllLogged;
      ghost var s := st;
      if off > st.inodes[i].size || off + |src| >= UINT {
        return -1;
      }
      if off + |src| > MAXFILE * BSIZE {
        return -1;
      }
      tot := WriteBlocks(i, off, src);
      ghost var b, l := st, logged;
      WrittenFile(s, b, i, off, src[..tot]);
      st := st.(inodes := st.inodes[i := st.inodes[i].(size := NewSize(st, i, off + tot))]);
      logged := logged + {inodestart + i / IPB};   // iupdate
      assert st == Resized(b, i, NewSize(b, i, off + tot));
      ResizedWriteSet(b, i, NewSize(b, i, off + tot), off);
      InodeNoted(b, st, l, bmapstart, i);
      NotedTransitive(s, b, st, old(logged), l, l, bmapstart, i);
      NotedAll(s, st, old(logged), l, bmapstart, inodestart, i);
    }

    /** itrunc: the inode is empty, and exactly its blocks are free again. */
    method Itrunc(i: nat)
      requires Inv(st) && i in st.inodes
      modifies this`st, this`logged
      ensures Truncated(old(st), st, i)
      ensures st.size <= BPB ==> logged <= old(logged) + {bmapstart, inodestart + i / IPB}
      ensures old(logged) <= logged && AllLogged(old(st), st, logged, bmapstart, inodestart)
    {
      hide Inv, Addr, Released, Freed, Truncated, BlocksLogged, AllLogged;
      ghost var s := st;
      TruncDirect(i);
      ReleasedDirect(s, st.bitmap, i);
      ghost var a, k := st, logged;
      NotedNothing(a, k, bmapstart, i);
      if st.inodes[i].addrs[NDIRECT] != 0 {
        TruncIndirect(s, i, st.inodes[i].addrs[NDIRECT]);
      }
      NotedTransitive(s, a, st, old(logged), k, logged, bmapstart, i);
      ghost var b, l := st, logged;
      if st.inodes[i].addrs[NDIRECT] != 0 {
        st := SetAddr(st, i, NDIRECT, 0);
      }
      st := st.(inodes := st.inodes[i := st.inodes[i].(size := 0)]);
      logged := logged + {inodestart + i / IPB};   // iupdate
      st := st.(owner := Disowned(st.owner, i));
      TruncatedState(s, i, st.bitmap);
      assert st.inodes[i].addrs == seq(NDIRECT + 1, _ => 0);
      assert st == Emptied(s, i, st.bitmap);
      InodeNoted(b, st, l, bmapstart, i);
      NotedTransitive(s, b, st, old(logged), l, l, bmapstart, i);
      NotedAll(s, st, old(logged), l, bmapstart, inodestart, i);
    }

    /** itrunc's walk over the direct blocks. */
    method TruncDirect(i: nat)
      requires Inv(st) && i in st.inodes
      modifies this`st, this`logged
      ensures i in st.inodes
      ensures st == old(st).(bitmap := st.bitmap,
                inodes := old(st).inodes[i := Inode(old(st).inodes[i].size, st.inodes[i].addrs)])
      ensures |st.inodes[i].addrs| == |old(st).inodes[i].addrs| == NDIRECT + 1
      ensures st.inodes[i].addrs[NDIRECT] == old(st).inodes[i].addrs[NDIRECT]
      ensures forall x | 0 <= x < NDIRECT :: st.inodes[i].addrs[x] == 0
      ensures Released(old(st), st.bitmap, i, NDIRECT)
      ensures st.size <= BPB ==> logged <= old(logged) + {bmapstart}
      ensures Noted(old(st), st, old(logged), logged, bmapstart, i)
    {
      hide Inv, Addr, Released, Noted;
      ghost var s := st;
      InvShape(s);
      ReleasedNone(s, i);
      NotedNothing(s, logged, bmapstart, i);
      var k := 0;
      while k < NDIRECT
        invariant 0 <= k <= NDIRECT && Released(s, st.bitmap, i, k) && i in st.inodes
        invariant st == s.(bitmap := st.bitmap, inodes := s.inodes[i := Inode(s.inodes[i].size, st.inodes[i].addrs)])
        invariant |st.inodes[i].addrs| == NDIRECT + 1
        invariant forall x | 0 <= x <= NDIRECT :: st.inodes[i].addrs[x] == if x < k then 0 else s.inodes[i].addrs[x]
        invariant st.size <= BPB ==> logged <= old(logged) + {bmapstart}
        invariant Noted(s, st, old(logged), logged, bmapstart, i)
      {
        ReleasedMore(s, st.bitmap, i, k);
        DirectAddr(s, i, k);
        if st.inodes[i].addrs[k] != 0 {
          ghost var a, l := st, logged;
          Bfree(st.inodes[i].addrs[k]);
          FreedDirect(s, a, old(logged), l, bmapstart, i, k);
          st := SetAddr(st, i, k, 0);
        }
        k := k + 1;
      }
    }

    /** itrunc's walk over the indirect block p, and the release of p itself. */
    method TruncIndirect(ghost s: Fs, i: nat, p: nat)
      requires Inv(s) && i in s.inodes && s.inodes[i].addrs[NDIRECT] == p != 0 && Released(s, st.bitmap, i, NDIRECT)
      requires st.ptrs == s.ptrs && st.size == s.size && i in st.inodes
      modifies this`st, this`logged
      ensures st == old(st).(bitmap := st.bitmap) && Freed(s, st.bitmap, i)
      ensures st.size <= BPB ==> logged <= old(logged) + {bmapstart}
      ensures Noted(old(st), st, old(logged), logged, bmapstart, i)
    {
      hide Inv, Addr, Released, Freed, Noted;
      InvShape(s);
      NotedNothing(st, logged, bmapstart, i);
      EntryAddr(s, i, 0);
      var j := 0;
      while j < NINDIRECT
        invariant 0 <= j <= NINDIRECT && Released(s, st.bitmap, i, NDIRECT + j) && st == old(st).(bitmap := st.bitmap)
        invariant st.size <= BPB ==> logged <= old(logged) + {bmapstart}
        invariant Noted(old(st), st, old(logged), logged, bmapstart, i)
      {
        ReleasedMore(s, st.bitmap, i, NDIRECT + j);
        EntryAddr(s, i, j);
        var b := st.ptrs[p][j];
        if b != 0 {
          ghost var a, l := st, logged;
          Bfree(b);
          FreedMore(old(st), a, st, old(logged), l, bmapstart, i, b);
        }
        j := j + 1;
      }
      ReleasedAll(s, st.bitmap, i);
      ghost var a, l := st, logged;
      Bfree(p);
      FreedMore(old(st), a, st, old(logged), l, bmapstart, i, p);
    }

    /** end_op, and begin_op of the next operation: the log budget is used afresh. */
    ghost method NextOp()
      modifies this`logged, this`heaviest, this`begun, this`thorough
      ensures logged == {} && heaviest == (if |old(logged)| > old(heaviest) then |old(logged)| else old(heaviest))
      ensures begun == st
      ensures thorough == (old(thorough) && AllLogged(old(begun), st, old(logged), bmapstart, inodestart))
    {
      heaviest := if |logged| > heaviest then |logged| else heaviest;
      thorough := thorough && AllLogged(begun, st, logged, bmapstart, inodestart);
      begun := st;
      logged := {};
    }

    /**
      filewrite on an inode: src[..n] in chunks of at most three blocks' length, one log
      operation each.  The offset moves over exactly the bytes that were written; n is
      returned when that is all of them, otherwise -1.
     */
    method Filewrite(i: nat, off: nat, src: seq<byte>, n: int) returns (ret: int, off': nat)
      requires Inv(st) && i in st.inodes && st.inodes[i].size <= MAXFILE * BSIZE && off < UINT
      requires n <= |src| && n < UINT / 2 && logged == {} && begun == st
      modifies this`st, this`logged, this`heaviest, this`begun, this`thorough
      ensures off > old(st).inodes[i].size ==> st == old(st) && off' == off && ret == if n == 0 then 0 else -1
      ensures off <= old(st).inodes[i].size ==>
                && off <= off' <= off + |src| && FileWritten(old(st), st, i, off, src[..off' - off])
                && (ret == if off' - off == n then n else -1)
                && (off' - off < n && off + n <= MAXFILE * BSIZE ==> Full(st))
      ensures st.size <= BPB ==> heaviest <= old(heaviest) || heaviest <= 7
      ensures logged == {} && begun == st && thorough == old(thorough)
    {
      hide Inv, Addr, Contents, Mapped, FileWritten, Shape, WriteSet, AllLogged;
      var max := (MAXOPBLOCKS - 1 - 1 - 2) / 2 * BSIZE;
      ghost var s := st;
      var k, o := 0, off;
      ret := 0;
      if off <= st.inodes[i].size {
        WrittenNothing(s, i, off);
      }
      while k < n
        invariant 0 <= k && (k <= n || k == 0) && o == off + k && logged == {} && Inv(st) && i in st.inodes
        invariant st.size == s.size
        invariant st.inodes[i].size <= MAXFILE * BSIZE
        invariant off > s.inodes[i].size ==> st == s && k == 0
        invariant off <= s.inodes[i].size ==> FileWritten(s, st, i, off, src[..k]) && o <= st.inodes[i].size
        invariant st.size <= BPB ==> heaviest <= old(heaviest) || heaviest <= 7
        invariant begun == st && thorough == old(thorough)
      {
        var n1 := if n - k > max then max else n - k;
        ghost var b := st;
        var r := Writei(i, o, src[k..k + n1]);
        if r != -1 {
          WrittenMore(s, b, st, i, off, src, k, n1, r);
          WrittenFacts(s, st, i, off, src[..k + r]);
          if st.size <= BPB {
            SmallCount(st, i, o, logged, bmapstart, inodestart + i / IPB);
          }
        }
        if r == -1 { NothingLogged(st, logged, bmapstart, inodestart); }
        NextOp();
        if r > 0 {
          o := o + r;
        }
        if r != n1 {
          return -1, o;
        }
        k := k + r;
      }
      off' := o;
      ret := if k == n then n else -1;
    }
  }

  /** What was written is what is read back. */
  lemma WriteThenRead(s: Fs, s': Fs, i: nat, off: nat, data: seq<byte>)
    requires FileSystem.FileWritten(s, s', i, off, data)
    ensures off + |data| <= |Contents(s', i)| && Contents(s', i)[off..off + |data|] == data
    ensures Contents(s', i)[..off] == Contents(s, i)[..off]
  {
    hide Inv, Contents, Addr, Mapped, Tight;
  }

  lemma WrittenNothing(s: Fs, i: nat, off: nat)
    requires Inv(s) && i in s.inodes && off <= s.inodes[i].size <= MAXFILE * BSIZE
    ensures FileSystem.FileWritten(s, s, i, off, [])
  {
    hide Held, Placed, Marked, Addr, ByteAt, Mapped;
    assert Contents(s, i) == FileSystem.Spliced(Contents(s, i), off, []);
  }

  /** Two splices, one right after the other, are one. */
  lemma SplicedTwice(c: seq<byte>, off: nat, d: seq<byte>, e: seq<byte>)
    requires off <= |c|
    ensures FileSystem.Spliced(FileSystem.Spliced(c, off, d), off + |d|, e) == FileSystem.Spliced(c, off, d + e)
  {
    var once := FileSystem.Spliced(c, off, d);
    assert once[..off + |d|] == c[..off] + d;
    if off + |d| + |e| <= |c| {
      assert once[off + |d| + |e|..] == c[off + |d| + |e|..];
      assert FileSystem.Spliced(once, off + |d|, e) == FileSystem.Spliced(c, off, d + e);
    } else {
      assert FileSystem.Spliced(once, off + |d|, e) == FileSystem.Spliced(c, off, d + e);
    }
  }

  lemma WrittenMore(s: Fs, b: Fs, s': Fs, i: nat, off: nat, src: seq<byte>, k: nat, n: nat, r: nat)
    requires k + n <= |src| && r <= n
    requires FileSystem.FileWritten(s, b, i, off, src[..k])
    requires FileSystem.FileWritten(b, s', i, off + k, src[k..k + n][..r])
    ensures FileSystem.FileWritten(s, s', i, off, src[..k + r])
  {
    hide Inv, Addr, Mapped, Contents, Shape, FileSystem.Spliced;
    OthersKeptTwice(s, b, s', i);
    SplicedTwice(Contents(s, i), off, src[..k], src[k..k + n][..r]);
    assert src[..k] + src[k..k + n][..r] == src[..k + r];
  }

  lemma OthersKeptTwice(s: Fs, b: Fs, s': Fs, i: nat)
    requires Inv(s) && Inv(b) && Inv(s') && b.inodes.Keys == s.inodes.Keys && s'.inodes.Keys == b.inodes.Keys
    requires FileSystem.OthersKept(s, b, i) && FileSystem.OthersKept(b, s', i)
    ensures FileSystem.OthersKept(s, s', i)
  {
    hide Held, Placed, Marked, Addr, Contents;
    forall x | x in s.inodes && x != i
      ensures s'.inodes[x].size == s.inodes[x].size
      ensures s.inodes[x].size <= MAXFILE * BSIZE ==> Contents(s', x) == Contents(s, x)
    {
      assert b.inodes[x].size == s.inodes[x].size;
    }
  }

  lemma WrittenFacts(s: Fs, s': Fs, i: nat, off: nat, data: seq<byte>)
    requires FileSystem.FileWritten(s, s', i, off, data)
    ensures Inv(s') && Shape(s') && i in s'.inodes && s'.inodes[i].size <= MAXFILE * BSIZE && s'.size == s.size
    ensures off + |data| <= s'.inodes[i].size
  {
    hide Held, Placed, Marked, Addr, ByteAt, Mapped;
    assert |Contents(s', i)| == s'.inodes[i].size;
  }

  /** bitmap, inode, indirect and at most four data blocks. */
  lemma SmallCount(s: Fs, i: nat, off: nat, logged: set<nat>, bmap: nat, iblock: nat)
    requires Shape(s) && i in s.inodes && logged <= {bmap, iblock} + WriteSet(s, i, off) && 0 !in logged
    ensures |logged| <= 7
  {
    var most := {bmap, iblock, s.inodes[i].addrs[NDIRECT], At(s, i, off / BSIZE), At(s, i, off / BSIZE + 1),
                 At(s, i, off / BSIZE + 2), At(s, i, off / BSIZE + 3)};
    SubsetSize(logged, most);
  }

  // ---------------------------------------------------------------------
  // Truncation

  /** The block belongs to inode i. */
  ghost predicate OfInode(o: Owner, i: nat) {
    (o.DataOf? && o.inum == i) || (o.IndirectOf? && o.inum == i)
  }

  ghost function Disowned(owner: map<nat, Owner>, i: nat): map<nat, Owner> {
    map b | b in owner && !OfInode(owner[b], i) :: owner[b]
  }

  /** Exactly the data blocks below block number k of inode i are free again. */
  ghost predicate Released(s: Fs, bitmap: seq<bool>, i: nat, k: nat) {
    && |bitmap| == s.size
    && forall b: nat | b < s.size ::
         bitmap[b] <==> b in s.owner && !(s.owner[b].DataOf? && s.owner[b].inum == i && s.owner[b].bn < k)
  }

  /** Exactly the blocks of inode i are free again. */
  ghost predicate Freed(s: Fs, bitmap: seq<bool>, i: nat) {
    && |bitmap| == s.size
    && forall b: nat | b < s.size :: bitmap[b] <==> b in s.owner && !OfInode(s.owner[b], i)
  }

  lemma ReleasedNone(s: Fs, i: nat)
    requires Inv(s)
    ensures Released(s, s.bitmap, i, 0)
  {
  }

  /** The next block is still marked used, so freeing it cannot find it free. */
  lemma ReleasedMore(s: Fs, bitmap: seq<bool>, i: nat, k: nat)
    requires Inv(s) && i in s.inodes && k < MAXFILE && Released(s, bitmap, i, k)
    ensures var a := Addr(s, i, k);
            && |bitmap| == s.size && (a != 0 ==> a < s.size && bitmap[a])
            && Released(s, if a != 0 && a < |bitmap| then bitmap[a := false] else bitmap, i, k + 1)
  {
    AddrBound(s, i, k);
    hide Addr;
  }

  lemma DirectAddr(s: Fs, i: nat, k: nat)
    requires Inv(s) && i in s.inodes && k < NDIRECT
    ensures Addr(s, i, k) == s.inodes[i].addrs[k]
  {
  }

  lemma ReleasedAll(s: Fs, bitmap: seq<bool>, i: nat)
    requires Inv(s) && i in s.inodes && Released(s, bitmap, i, MAXFILE) && s.inodes[i].addrs[NDIRECT] != 0
    ensures var p := s.inodes[i].addrs[NDIRECT];
              |bitmap| == s.size && p < s.size && bitmap[p] && Freed(s, bitmap[p := false], i)
  {
    hide Addr;
  }

  lemma ReleasedDirect(s: Fs, bitmap: seq<bool>, i: nat)
    requires Inv(s) && i in s.inodes && Released(s, bitmap, i, NDIRECT)
    ensures s.inodes[i].addrs[NDIRECT] == 0 ==> Freed(s, bitmap, i)
  {
  }

  /** The inode is empty and owns nothing; the blocks that became free are exactly its own. */
  ghost predicate Truncated(s: Fs, s': Fs, i: nat) {
    && Inv(s) && Inv(s') && i in s.inodes && s'.inodes.Keys == s.inodes.Keys && s'.size == s.size
    && s'.inodes[i].size == 0 && Contents(s', i) == []
    && (forall bn: nat | bn < MAXFILE :: Addr(s', i, bn) == 0)
    && Freed(s, s'.bitmap, i)
    && FileSystem.OthersKept(s, s', i) && FileSystem.MapKept(s, s', i)
  }

  ghost function Emptied(s: Fs, i: nat, bitmap: seq<bool>): Fs {
    s.(bitmap := bitmap, inodes := s.inodes[i := Inode(0, seq(NDIRECT + 1, _ => 0))], owner := Disowned(s.owner, i))
  }

  lemma EmptiedAddrs(s: Fs, i: nat, bitmap: seq<bool>)
    requires Inv(s) && i in s.inodes && Freed(s, bitmap, i)
    ensures var s' := Emptied(s, i, bitmap);
            && Shape(s') && (forall x, y: nat | x in s.inodes && y < MAXFILE :: Addr(s', x, y) == if x == i then 0
              else Addr(s, x, y))
  {
  }

  lemma EmptiedInv(s: Fs, i: nat, bitmap: seq<bool>)
    requires Inv(s) && i in s.inodes && Freed(s, bitmap, i)
    ensures Inv(Emptied(s, i, bitmap))
  {
    hide Addr;
    EmptiedAddrs(s, i, bitmap);
    var s' := Emptied(s, i, bitmap);
    assert Held(s');
    assert Placed(s');
  }

  lemma TruncatedState(s: Fs, i: nat, bitmap: seq<bool>)
    requires Inv(s) && i in s.inodes && Freed(s, bitmap, i)
    ensures Truncated(s, Emptied(s, i, bitmap), i)
  {
    hide Addr, Held, Placed, Marked, Contents;
    EmptiedAddrs(s, i, bitmap);
    EmptiedInv(s, i, bitmap);
    EmptiedOthers(s, i, bitmap);
  }

  lemma EmptiedOthers(s: Fs, i: nat, bitmap: seq<bool>)
    requires Inv(s) && i in s.inodes && Freed(s, bitmap, i)
    ensures Shape(Emptied(s, i, bitmap)) && FileSystem.OthersKept(s, Emptied(s, i, bitmap), i)
  {
    hide Addr, Held, Placed, Marked;
    EmptiedAddrs(s, i, bitmap);
    var s' := Emptied(s, i, bitmap);
    forall x | x in s.inodes && x != i
      && s.inodes[x].size <= MAXFILE * BSIZE ensures Contents(s', x) == Contents(s, x) {
      assert Contents(s', x) == Contents(s, x);
    }
  }

  /** writei moves the size only forward. */
  function NewSize(s: Fs, i: nat, end: nat): (size: nat)
    requires i in s.inodes
    ensures size >= s.inodes[i].size && size >= end
  {
    if end > s.inodes[i].size then end else s.inodes[i].size
  }

  lemma ProgressNone(s: Fs, i: nat, off: nat, src: seq<byte>)
    requires Inv(s) && i in s.inodes
    ensures FileSystem.Progress(s, s, i, off, src, 0)
  {
    WroteNothing(s, i, off);
    assert src[..0] == [];
  }

  lemma ProgressMore(s: Fs, b: Fs, s': Fs, i: nat, off: nat, src: seq<byte>, tot: nat, m: nat)
    requires FileSystem.Progress(s, b, i, off, src, tot) && tot < |src| && tot + m <= |src|
    requires off + |src| <= MAXFILE * BSIZE
    requires FileSystem.Wrote(b, s', i, off + tot, src[tot..][..m]) && FileSystem.AddrsKept(b, s', i)
    requires m == if Addr(s', i, (off + tot) / BSIZE) == 0 then 0 else FileSystem.Chunk(off + tot, |src| - tot)
    requires OnlyAt(b, s', i, (off + tot) / BSIZE)
    ensures FileSystem.Progress(s, s', i, off, src, tot + m)
  {
    hide Held, Placed, Marked, Addr, ByteAt, OnlyAt, OnlyReached;
    OnlyReachedMore(s, b, s', i, off, tot, m);
    WroteMore(s, b, s', i, off, src, tot, m);
    if m > 0 {
      ReachesMore(b, s', i, off, tot, m, |src|);
    }
  }

  lemma ResizedWriteSet(s: Fs, i: nat, size: nat, off: nat)
    requires Inv(s) && i in s.inodes
    ensures Shape(s) && Shape(Resized(s, i, size)) && WriteSet(Resized(s, i, size), i, off) == WriteSet(s, i, off)
  {
    ResizedKeeps(s, i, size);
    hide Addr;
  }

  lemma WroteNothing(s: Fs, i: nat, off: nat)
    requires Inv(s) && i in s.inodes
    ensures FileSystem.Wrote(s, s, i, off, []) && FileSystem.AddrsKept(s, s, i)
  {
  }

  lemma WroteMore(s: Fs, b: Fs, s': Fs, i: nat, off: nat, src: seq<byte>, tot: nat, m: nat)
    requires tot <= |src| && tot + m <= |src|
    requires FileSystem.Wrote(s, b, i, off, src[..tot]) && FileSystem.Wrote(b, s', i, off + tot, src[tot..][..m])
    ensures FileSystem.Wrote(s, s', i, off, src[..tot + m])
  {
    hide Held, Placed, Marked, Addr;
    forall x, k: nat | x in s.inodes && k < MAXFILE * BSIZE
      ensures ByteAt(s', x, k)
           == if x == i && off <= k < off + tot + m then src[..tot + m][k - off] else ByteAt(s, x, k)
    {
    }
  }

  function At(s: Fs, i: nat, bn: nat): nat
    requires Shape(s) && i in s.inodes
  {
    if bn < MAXFILE then Addr(s, i, bn) else 0
  }

  /** Besides bitmap and inode, the blocks a write of at most three blocks' length may log (and 0, no block). */
  ghost function WriteSet(s: Fs, i: nat, off: nat): set<nat>
    requires Shape(s) && i in s.inodes
  {
    {0, s.inodes[i].addrs[NDIRECT], At(s, i, off / BSIZE), At(s, i, off / BSIZE + 1),
     At(s, i, off / BSIZE + 2), At(s, i, off / BSIZE + 3)}
  }

  lemma WriteSetGrows(b: Fs, s: Fs, i: nat, off: nat, tot: nat, n: nat)
    requires Shape(b) && Shape(s) && FileSystem.AddrsKept(b, s, i) && tot < n && off + n <= MAXFILE * BSIZE
    ensures WriteSet(b, i, off) <= WriteSet(s, i, off) && s.inodes[i].addrs[NDIRECT] in WriteSet(s, i, off)
    ensures s.size == b.size
    ensures n <= 3 * BSIZE ==> Addr(s, i, (off + tot) / BSIZE) in WriteSet(s, i, off)
  {
    hide Addr;
    assert n <= 3 * BSIZE ==> off / BSIZE <= (off + tot) / BSIZE <= off / BSIZE + 3;
  }

  /** All blocks that hold bytes off .. off + tot are mapped. */
  ghost predicate Reaches(s: Fs, i: nat, off: nat, tot: nat)
    requires Shape(s) && i in s.inodes
  {
    forall bn: nat | bn < MAXFILE && off / BSIZE <= bn && bn * BSIZE < off + tot && tot > 0 :: Addr(s, i, bn) != 0
  }

  lemma ReachesMore(b: Fs, s: Fs, i: nat, off: nat, tot: nat, m: nat, n: nat)
    requires Shape(b) && Shape(s) && FileSystem.AddrsKept(b, s, i) && tot < n && off + n <= MAXFILE * BSIZE
    requires m == FileSystem.Chunk(off + tot, n - tot) && Addr(s, i, (off + tot) / BSIZE) != 0
    requires Reaches(b, i, off, tot) && (tot > 0 ==> (off + tot) % BSIZE == 0)
    ensures Reaches(s, i, off, tot + m) && (tot + m < n ==> (off + tot + m) % BSIZE == 0)
  {
    hide Addr;
    forall bn: nat | bn < MAXFILE && off / BSIZE <= bn && bn * BSIZE < off + tot + m ensures Addr(s, i, bn) != 0 {
      if bn * BSIZE < off + tot && tot > 0 {
        assert Addr(b, i, bn) != 0;
      } else {
        assert bn == (off + tot) / BSIZE;
      }
    }
  }

  /** No other block number of the inode has changed. */
  ghost predicate OnlyReached(s: Fs, s': Fs, i: nat, off: nat, tot: nat)
    requires Shape(s) && Shape(s') && i in s.inodes && i in s'.inodes
  {
    forall bn: nat | bn < MAXFILE
      && !(off / BSIZE <= bn && bn * BSIZE < off + tot && tot > 0) :: Addr(s', i, bn) == Addr(s, i, bn)
  }

  lemma OnlyReachedMore(s: Fs, b: Fs, s': Fs, i: nat, off: nat, tot: nat, m: nat)
    requires Shape(s) && Shape(b) && Shape(s') && i in s.inodes && b.inodes.Keys == s.inodes.Keys
    requires s'.inodes.Keys == b.inodes.Keys
    requires OnlyReached(s, b, i, off, tot) && OnlyAt(b, s', i, (off + tot) / BSIZE)
    requires off + tot < MAXFILE * BSIZE && FileSystem.AddrsKept(b, s', i)
    requires m == 0 ==> Addr(s', i, (off + tot) / BSIZE) == 0
    ensures OnlyReached(s, s', i, off, tot + m)
  {
    hide Addr;
    assert off / BSIZE <= (off + tot) / BSIZE && (off + tot) / BSIZE * BSIZE <= off + tot;
    if m == 0 {
      assert Addr(b, i, (off + tot) / BSIZE) == 0;
    }
  }

  /** The state after ip->size is set. */
  function Resized(s: Fs, i: nat, size: nat): Fs
    requires i in s.inodes
  {
    s.(inodes := s.inodes[i := s.inodes[i].(size := size)])
  }

  lemma ResizedKeeps(s: Fs, i: nat, size: nat)
    requires Inv(s) && i in s.inodes
    ensures var s' := Resized(s, i, size);
            && Inv(s')
            && (forall x, y: nat | x in s.inodes && y < MAXFILE :: Addr(s', x, y) == Addr(s, x, y))
            && (forall x, k: nat | x in s.inodes && k < MAXFILE * BSIZE :: ByteAt(s', x, k) == ByteAt(s, x, k))
  {
    var s' := Resized(s, i, size);
    assert Shape(s');
    assert forall x, y: nat | x in s.inodes && y < MAXFILE :: Addr(s', x, y) == Addr(s, x, y);
    assert Held(s') && Placed(s');
  }

  lemma WrittenFile(s: Fs, b: Fs, i: nat, off: nat, data: seq<byte>)
    requires FileSystem.Wrote(s, b, i, off, data) && i in s.inodes && FileSystem.AddrsKept(s, b, i)
    requires off <= s.inodes[i].size <= MAXFILE * BSIZE && off + |data| <= MAXFILE * BSIZE
    requires Reaches(b, i, off, |data|) && OnlyReached(s, b, i, off, |data|)
    ensures FileSystem.FileWritten(s, Resized(b, i, NewSize(b, i, off + |data|)), i, off, data)
  {
    hide Held, Placed, Marked, Addr, ByteAt, Mapped, Contents;
    var size := NewSize(b, i, off + |data|);
    ResizedKeeps(b, i, size);
    WrittenMapped(s, b, i, off, |data|, size);
    WrittenContents(s, b, i, off, data);
  }

  lemma WrittenContents(s: Fs, b: Fs, i: nat, off: nat, data: seq<byte>)
    requires FileSystem.Wrote(s, b, i, off, data) && i in s.inodes && FileSystem.AddrsKept(s, b, i)
    requires off <= s.inodes[i].size <= MAXFILE * BSIZE && off + |data| <= MAXFILE * BSIZE
    ensures var s' := Resized(b, i, NewSize(b, i, off + |data|));
            && Shape(s') && Contents(s', i) == FileSystem.Spliced(Contents(s, i), off, data)
            && FileSystem.OthersKept(s, s', i)
  {
    hide Held, Placed, Marked, Addr, ByteAt;
    var size := NewSize(b, i, off + |data|);
    var s' := Resized(b, i, size);
    ResizedKeeps(b, i, size);
    assert Contents(s', i) == FileSystem.Spliced(Contents(s, i), off, data);
    forall x | x in s.inodes && x != i
      && s.inodes[x].size <= MAXFILE * BSIZE ensures Contents(s', x) == Contents(s, x) {
      assert Contents(s', x) == Contents(s, x);
    }
  }

  lemma WrittenMapped(s: Fs, b: Fs, i: nat, off: nat, n: nat, size: nat)
    requires Inv(s) && Inv(b) && FileSystem.AddrsKept(s, b, i) && off <= s.inodes[i].size && off + n <= MAXFILE * BSIZE
    requires Reaches(b, i, off, n) && OnlyReached(s, b, i, off, n) && size == NewSize(b, i, off + n)
    ensures FileSystem.MapKept(s, Resized(b, i, size), i)
  {
    hide Held, Placed, Marked, Addr, ByteAt;
    var s' := Resized(b, i, size);
    ResizedKeeps(b, i, size);
    if Mapped(s, i) {
      forall bn: nat | bn < MAXFILE && bn * BSIZE < size ensures Addr(s', i, bn) != 0 {
        if bn * BSIZE < s.inodes[i].size {
          assert Addr(s, i, bn) != 0;
        } else {
          assert Addr(b, i, bn) != 0;
        }
      }
    }
  }

  /** Overwriting part of one mapped block writes exactly those bytes of the inode. */
  lemma WriteChunk(s: Fs, b: Fs, i: nat, o: nat, data: seq<byte>)
    requires Inv(s) && Inv(b) && i in b.inodes && data != [] && o % BSIZE + |data| <= BSIZE
    requires o + |data| <= MAXFILE * BSIZE
    requires SameBytes(s, b) && Addr(b, i, o / BSIZE) != 0
    ensures var a := Addr(b, i, o / BSIZE);
            && a < b.size
            && var block := b.blocks[a];
               var s' := Stored(b, a, block[..o % BSIZE] + data + block[o % BSIZE + |data|..]);
               && FileSystem.Wrote(s, s', i, o, data) && s'.inodes == b.inodes
               && (forall x, y: nat | x in b.inodes && y < MAXFILE :: Addr(s', x, y) == Addr(b, x, y))
  {
    hide Held, Placed, Marked, Addr;
    AddrBound(b, i, o / BSIZE);
    var a := Addr(b, i, o / BSIZE);
    var block := b.blocks[a];
    var next := block[..o % BSIZE] + data + block[o % BSIZE + |data|..];
    var s' := Stored(b, a, next);
    StoredBytes(b, i, o / BSIZE, next);
    StoredKeeps(b, a, next);
    forall x, k: nat | x in s.inodes && k < MAXFILE * BSIZE
      ensures ByteAt(s', x, k) == if x == i && o <= k < o + |data| then data[k - o] else ByteAt(s, x, k)
    {
      if x == i && k / BSIZE == o / BSIZE {
        assert k % BSIZE - o % BSIZE == k - o;
        assert ByteAt(b, i, k) == block[k % BSIZE];
      }
    }
  }

  lemma InvShape(s: Fs)
    requires Inv(s)
    ensures Shape(s) && SameBytes(s, s)
  {
  }

  /** A chunk inside one block holds the inode's bytes at that offset. */
  lemma ReadChunk(s: Fs, i: nat, o: nat, m: nat)
    requires Inv(s) && i in s.inodes && o + m <= MAXFILE * BSIZE && m > 0 && o % BSIZE + m <= BSIZE
    requires Addr(s, i, o / BSIZE) != 0
    ensures Addr(s, i, o / BSIZE) < s.size
    ensures forall k | o <= k < o + m :: ByteAt(s, i, k) == s.blocks[Addr(s, i, o / BSIZE)][o % BSIZE + (k - o)]
  {
    AddrBound(s, i, o / BSIZE);
    hide Held, Placed, Marked, Addr;
    forall k | o <= k < o + m ensures ByteAt(s, i, k) == s.blocks[Addr(s, i, o / BSIZE)][o % BSIZE + (k - o)] {
      assert k / BSIZE == o / BSIZE && k % BSIZE == o % BSIZE + (k - o);
    }
  }

  /** Within the first bitmap block every block's bit is in that block. */
  lemma AddrSmall(s: Fs, i: nat, bn: nat)
    requires Inv(s) && i in s.inodes && bn < MAXFILE
    ensures s.size <= BPB ==> Addr(s, i, bn) / BPB == 0 && s.inodes[i].addrs[NDIRECT] / BPB == 0
  {
    AddrBound(s, i, bn);
  }
}
