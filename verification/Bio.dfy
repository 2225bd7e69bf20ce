/**
  The buffer cache (kernel/bio.c): the LRU ring of buffers, reference counts, and the
  view of cache plus disk as one flat map from blocks to contents.

  Buffers are numbered 0..NBUF-1; number NBUF is the list head.  Each method is one
  critical section of bcache.lock.  `users` counts the callers of bget that have not
  yet released a buffer, `pinned` holds the pinned buffers, and `modified` those that a
  caller has changed and not yet logged or written.

  The log's list of blocks and its three loops over it (kernel/log.c: log_write,
  write_log, install_trans) are here too, because they run on these buffers; `slot` names
  the buffer of each listed block.
 */
module Bio {
  import opened Prelude
  import opened Words
  import opened LogHead
  import L = LogDisk

  const NBUF: nat := 30
  const HEAD: nat := NBUF

  type Data = Sector

  datatype Key = Key(dev: nat, blockno: nat)

  datatype Buf = Buf(key: Key, valid: bool, refcnt: nat, data: Data)

  // ---------------------------------------------------------------------
  // The ring

  /** The node at position i, counting the head as position -1 and as position |order|. */
  function At(order: seq<nat>, i: int): nat
    requires -1 <= i <= |order|
  {
    if 0 <= i < |order| then order[i] else HEAD
  }

  /** Following next from the head visits order, following prev visits it backwards. */
  ghost predicate Ring(next: seq<nat>, prev: seq<nat>, order: seq<nat>) {
    && |next| == NBUF + 1 && |prev| == NBUF + 1
    && (forall j | 0 <= j <= NBUF :: next[j] <= NBUF && prev[j] <= NBUF)
    && (forall i | 0 <= i < |order| :: order[i] < NBUF)
    && (forall i, j | 0 <= i < j < |order| :: order[i] != order[j])
    && (forall i | -1 <= i < |order| :: next[At(order, i)] == At(order, i + 1))
    && (forall i | 0 <= i <= |order| :: prev[At(order, i)] == At(order, i - 1))
  }

  /** order without the element at position k. */
  function Without(order: seq<nat>, k: nat): seq<nat>
    requires k < |order|
  {
    order[..k] + order[k + 1..]
  }

  /** Unlinking the node at position k from the ring. */
  lemma Unlink(next: seq<nat>, prev: seq<nat>, order: seq<nat>, k: nat)
    requires Ring(next, prev, order) && k < |order|
    ensures var b := order[k];
            Ring(next[prev[b] := next[b]], prev[next[b] := prev[b]], Without(order, k))
  {
    var b, rest := order[k], Without(order, k);
    var next', prev' := next[prev[b] := next[b]], prev[next[b] := prev[b]];
    assert b == At(order, k) && next[b] == At(order, k + 1) && prev[b] == At(order, k - 1);
    forall i | -1 <= i < |rest| ensures next'[At(rest, i)] == At(rest, i + 1) {
      assert At(rest, i) == if i < k then At(order, i) else At(order, i + 1);
      assert At(rest, i + 1) == if i + 1 < k then At(order, i + 1) else At(order, i + 2);
    }
    forall i | 0 <= i <= |rest| ensures prev'[At(rest, i)] == At(rest, i - 1) {
      assert At(rest, i) == if i < k then At(order, i) else At(order, i + 1);
      assert At(rest, i - 1) == if i - 1 < k then At(order, i - 1) else At(order, i);
    }
  }

  /** Linking a node in at the front of the ring. */
  lemma LinkFront(next: seq<nat>, prev: seq<nat>, order: seq<nat>, b: nat)
    requires Ring(next, prev, order) && b < NBUF && b !in order
    ensures var first := next[HEAD];
            Ring(next[b := first][HEAD := b], prev[b := HEAD][first := b], [b] + order)
  {
    var first, all := next[HEAD], [b] + order;
    var next', prev' := next[b := first][HEAD := b], prev[b := HEAD][first := b];
    assert first == At(order, 0) by { assert At(order, -1) == HEAD; }
    forall i | -1 <= i < |all| ensures next'[At(all, i)] == At(all, i + 1) {
      if i > 0 { assert At(all, i) == At(order, i - 1) && At(all, i + 1) == At(order, i); }
    }
    forall i | 0 <= i <= |all| ensures prev'[At(all, i)] == At(all, i - 1) {
      if i > 0 { assert At(all, i) == At(order, i - 1) && (i > 1 ==> At(all, i - 1) == At(order, i - 2)); }
    }
  }

  /** A ring of NBUF distinct buffers contains all of them. */
  lemma RingHasAll(order: seq<nat>, b: nat)
    requires |order| == NBUF && b < NBUF
    requires forall i | 0 <= i < NBUF :: order[i] < NBUF
    requires forall i, j | 0 <= i < j < NBUF :: order[i] != order[j]
    ensures exists k :: 0 <= k < NBUF && order[k] == b
  {
    DistinctSize(order, NBUF);
    AllBuffers(set i | 0 <= i < NBUF :: order[i], b);
  }

  /** NBUF different buffers are all of them. */
  lemma AllBuffers(bufs: set<nat>, b: nat)
    requires |bufs| >= NBUF && b < NBUF && forall x | x in bufs :: x < NBUF
    ensures b in bufs
  {
    hide Range;
    if b !in bufs {
      SubsetSize(bufs + {b}, Range(0, NBUF));
      assert false;
    }
  }

  lemma {:induction false} DistinctSize(s: seq<nat>, n: nat)
    requires |s| == n && forall i, j | 0 <= i < j < n :: s[i] != s[j]
    ensures |set i | 0 <= i < n :: s[i]| == n
  {
    if n > 0 {
      var t := s[..n - 1];
      DistinctSize(t, n - 1);
      var a := set i | 0 <= i < n :: s[i];
      var b := set i | 0 <= i < n - 1 :: t[i];
      assert s[n - 1] !in b;
      forall x ensures x in a <==> x in b + {s[n - 1]} {
        if x in a { var i :| 0 <= i < n && s[i] == x; assert i < n - 1 ==> t[i] == x; }
        if x in b { var i :| 0 <= i < n - 1 && t[i] == x; assert s[i] == x; }
      }
      assert a == b + {s[n - 1]};
    }
  }

  /** Where a buffer is in a complete ring. */
  ghost function Position(next: seq<nat>, prev: seq<nat>, order: seq<nat>, b: nat): (k: nat)
    requires Ring(next, prev, order) && |order| == NBUF && b < NBUF
    ensures k < NBUF && order[k] == b
  {
    RingHasAll(order, b);
    var k: nat :| k < NBUF && order[k] == b;
    k
  }

  /** brelse's six pointer assignments move the node at position k to the front. */
  lemma MoveRing(next: seq<nat>, prev: seq<nat>, order: seq<nat>, k: nat)
    requires Ring(next, prev, order) && k < |order|
    ensures |next| == |prev| == NBUF + 1 && order[k] < NBUF
    ensures var b := order[k];
            && next[b] <= NBUF && prev[b] <= NBUF
            && var prev1, next1 := prev[next[b] := prev[b]], next[prev[b] := next[b]];
               && next1[HEAD] <= NBUF
               && var first := next1[HEAD];
                  Ring(next1[b := first][HEAD := b], prev1[b := HEAD][first := b], [b] + Without(order, k))
  {
    var b := order[k];
    Unlink(next, prev, order, k);
    assert b !in Without(order, k);
    LinkFront(next[prev[b] := next[b]], prev[next[b] := prev[b]], Without(order, k), b);
  }

  /** Stamping the node that moves to the front keeps the ring sorted by stamp. */
  lemma MoveStamp(next: seq<nat>, prev: seq<nat>, order: seq<nat>, k: nat, stamp: seq<nat>, clock: nat)
    requires Ring(next, prev, order) && |order| == |stamp| == NBUF && k < NBUF
    requires forall b | 0 <= b < NBUF :: stamp[b] < clock
    requires forall i, j | 0 <= i < j < NBUF :: stamp[order[i]] > stamp[order[j]]
    ensures var order', stamp' := [order[k]] + Without(order, k), stamp[order[k] := clock];
            && |order'| == NBUF && (forall i | 0 <= i < NBUF :: order'[i] < NBUF)
            && (forall i, j | 0 <= i < j < NBUF :: stamp'[order'[i]] > stamp'[order'[j]])
  {
    var order', stamp' := [order[k]] + Without(order, k), stamp[order[k] := clock];
    forall i, j | 0 <= i < j < NBUF ensures stamp'[order'[i]] > stamp'[order'[j]] {
      var i', j' := if i - 1 < k then i - 1 else i, if j - 1 < k then j - 1 else j;
      assert order'[j] == order[j'];
      if i > 0 { assert order'[i] == order[i'] && i' < j'; }
    }
  }

  // ---------------------------------------------------------------------
  // Cache and disk as one map

  ghost predicate Holds(bufs: seq<Buf>, i: nat, k: Key) {
    i < |bufs| && bufs[i].key == k && bufs[i].valid
  }

  ghost function Index(bufs: seq<Buf>, k: Key): (i: nat)
    requires exists i: nat :: Holds(bufs, i, k)
    ensures Holds(bufs, i, k)
  {
    var i: nat :| Holds(bufs, i, k); i
  }

  /** The latest contents of block k: the cached copy if there is one, else the disk's. */
  ghost function Flat(bufs: seq<Buf>, disk: map<Key, Data>, k: Key): Data
    requires k in disk
  {
    if exists i: nat :: Holds(bufs, i, k) then bufs[Index(bufs, k)].data else disk[k]
  }

  /** At most one buffer per block; unused buffers start as block 0 of device 0. */
  ghost predicate Unique(bufs: seq<Buf>) {
    forall i, j | 0 <= i < j < |bufs| && bufs[i].key == bufs[j].key :: bufs[i].key.dev == 0
  }

  lemma FlatCached(bufs: seq<Buf>, disk: map<Key, Data>, i: nat)
    requires i < |bufs| && Unique(bufs) && bufs[i].valid && bufs[i].key.dev != 0 && bufs[i].key in disk
    ensures Flat(bufs, disk, bufs[i].key) == bufs[i].data
  {
    assert Holds(bufs, i, bufs[i].key);
    var j := Index(bufs, bufs[i].key);
    assert bufs[i].key == bufs[j].key;
  }

  /** Two states agree on block k if their buffers for k, or else their disks, agree. */
  lemma FlatSame(bufs: seq<Buf>, disk: map<Key, Data>, bufs': seq<Buf>, disk': map<Key, Data>, k: Key)
    requires Unique(bufs) && Unique(bufs') && k.dev != 0 && k in disk && k in disk' && |bufs| == |bufs'|
    requires forall i: nat | i < |bufs| :: Holds(bufs, i, k) <==> Holds(bufs', i, k)
    requires forall i: nat | i < |bufs| && Holds(bufs, i, k) :: bufs[i].data == bufs'[i].data
    requires disk[k] == disk'[k]
    ensures Flat(bufs, disk, k) == Flat(bufs', disk', k)
  {
    if i: nat :| Holds(bufs, i, k) {
      FlatCached(bufs, disk, i);
      FlatCached(bufs', disk', i);
    }
  }

  /** Every block's latest contents. */
  ghost function FlatMap(bufs: seq<Buf>, disk: map<Key, Data>): map<Key, Data> {
    map k | k in disk && k.dev != 0 :: Flat(bufs, disk, k)
  }

  // ---------------------------------------------------------------------
  // Buffers, disk and the log's list

  /** Where the log lies on which device. */
  datatype Place = Place(dev: nat, start: nat, size: nat)

  /** The buffers, the disk and the log's list, with the books kept about them. */
  datatype Cache = Cache(
    bufs: seq<Buf>,
    disk: map<Key, Data>,
    lh: seq<nat>,
    ghost users: seq<nat>,
    ghost pinned: set<nat>,
    ghost modified: set<nat>,
    ghost slot: seq<nat>,
    ghost installed: nat)

  /** Counts are exact, blocks are unique, and an unreferenced buffer has nothing to lose. */
  ghost predicate CacheInv(c: Cache) {
    && |c.bufs| == NBUF && |c.users| == NBUF && Unique(c.bufs)
    && (forall i | 0 <= i < NBUF :: c.bufs[i].refcnt == c.users[i] + if i in c.pinned then 1 else 0)
    && (forall i | i in c.pinned :: i < NBUF && c.bufs[i].valid)
    && (forall i | i in c.modified :: i < NBUF && c.bufs[i].valid && c.users[i] > 0)
    && (forall i | 0 <= i < NBUF && c.bufs[i].valid :: c.bufs[i].key.dev != 0 && c.bufs[i].key in c.disk)
    && (forall i | 0 <= i < NBUF && c.bufs[i].valid ::
          c.bufs[i].data == c.disk[c.bufs[i].key] || i in c.pinned || i in c.modified)
  }

  /** A block whose home is not the log itself. */
  predicate Home(at: Place, blockno: nat) {
    blockno < at.start || at.start + at.size <= blockno
  }

  /**
    The log lists no block twice, and the pinned buffers are exactly those of the listed
    blocks that install_trans has not reached yet.  The log's own blocks are on the disk.
   */
  ghost predicate LogInv(at: Place, c: Cache) {
    && at.dev != 0 && |c.slot| == |c.lh| && |c.lh| < at.size && |c.lh| <= LOGSIZE && c.installed <= |c.lh|
    && (forall i, j | 0 <= i < j < |c.lh| :: c.lh[i] != c.lh[j])
    && (forall i | 0 <= i < |c.lh| :: Home(at, c.lh[i]) && c.lh[i] < UINT)
    && (forall i | c.installed <= i < |c.lh| ::
          c.slot[i] in c.pinned && c.slot[i] < |c.bufs| && c.bufs[c.slot[i]].key == Key(at.dev, c.lh[i]))
    && (forall b | b in c.pinned :: Waits(c, b))
    && (forall x: nat | at.start <= x < at.start + at.size :: Key(at.dev, x) in c.disk)
  }

  /** Buffer b belongs to a listed block that is not installed yet. */
  ghost predicate Waits(c: Cache, b: nat) {
    exists i :: c.installed <= i < |c.slot| && c.slot[i] == b
  }

  ghost predicate Sound(at: Place, c: Cache) {
    CacheInv(c) && LogInv(at, c)
  }

  /** No block reads differently. */
  ghost predicate SameFlat(c: Cache, c': Cache) {
    FlatMap(c'.bufs, c'.disk) == FlatMap(c.bufs, c.disk)
  }

  /** The pinned buffers still hold the same data of the same blocks: none has been recycled. */
  ghost predicate PinsKept(c: Cache, c': Cache) {
    && |c'.bufs| == |c.bufs|
    && forall j | j in c.pinned && j < |c.bufs| :: c'.bufs[j].key == c.bufs[j].key && c'.bufs[j].data == c.bufs[j].data
  }

  /** The list and the pins are as before. */
  ghost predicate SameLog(c: Cache, c': Cache) {
    c'.lh == c.lh && c'.slot == c.slot && c'.installed == c.installed && c'.pinned == c.pinned
  }

  // ---------------------------------------------------------------------
  // When bget finds a buffer

  /** Buffer b can serve block k: it holds the block or is unreferenced. */
  ghost predicate Serves(c: Cache, b: nat, k: Key) {
    b < |c.bufs| && (c.bufs[b].key == k || c.bufs[b].refcnt == 0)
  }

  ghost predicate Ready(c: Cache, k: Key) {
    exists b: nat :: Serves(c, b, k)
  }

  /** Every buffer is referenced: "bget: no buffers" for any block that is not cached. */
  ghost predicate Full(c: Cache) {
    forall b | 0 <= b < |c.bufs| :: c.bufs[b].refcnt > 0
  }

  ghost predicate MoreReady(c: Cache, c': Cache) {
    forall k :: Ready(c, k) ==> Ready(c', k)
  }

  /** Block i of the log: the header, then the copies. */
  function LogKey(at: Place, i: nat): Key { Key(at.dev, at.start + i) }

  /** No block of the log up to number n meets "bget: no buffers". */
  ghost predicate AllReady(at: Place, c: Cache, lo: nat, n: nat) {
    forall i: nat | lo <= i < n :: Ready(c, LogKey(at, i))
  }

  /** Only unreferenced buffers have changed their block. */
  ghost predicate KeysKept(c: Cache, c': Cache) {
    |c'.bufs| == |c.bufs| && forall b | 0 <= b < |c.bufs| && c.bufs[b].refcnt > 0 :: c'.bufs[b].key == c.bufs[b].key
  }

  lemma ReadyGrows(c: Cache, c': Cache)
    requires KeysKept(c, c') && forall b | 0 <= b < |c.bufs| :: c'.bufs[b].refcnt <= c.bufs[b].refcnt
    ensures MoreReady(c, c')
  {
    forall k | Ready(c, k) ensures Ready(c', k) {
      var b: nat :| Serves(c, b, k);
      assert Serves(c', b, k);
    }
  }

  lemma ReadySame(at: Place, c: Cache, c': Cache)
    requires Sound(at, c) && Sound(at, c') && c'.users == c.users && c'.pinned == c.pinned && KeysKept(c, c')
    ensures MoreReady(c, c') && MoreReady(c', c)
  {
    hide LogInv, Unique;
    ReadyGrows(c, c');
    ReadyGrows(c', c);
  }

  lemma NeverReady(c: Cache, k: Key)
    ensures !Ready(c, k) ==> Full(c)
  {
    forall b: nat | b < |c.bufs| ensures c.bufs[b].refcnt == 0 ==> Serves(c, b, k) {
    }
  }

  /** A listed block that is not installed yet is always cached. */
  lemma ListedReady(at: Place, c: Cache, i: nat)
    requires LogInv(at, c) && c.installed <= i < |c.lh|
    ensures Ready(c, Key(at.dev, c.lh[i]))
  {
    assert Serves(c, c.slot[i], Key(at.dev, c.lh[i]));
  }

  /** The buffers that listed blocks keep pinned. */
  ghost function Slots(c: Cache, lo: nat): (r: set<nat>)
    requires lo <= |c.slot|
    ensures forall b :: b in r <==> exists i :: lo <= i < |c.slot| && c.slot[i] == b
    ensures |r| <= |c.slot| - lo
    ensures (forall i, j | lo <= i < j < |c.slot| :: c.slot[i] != c.slot[j]) ==> |r| == |c.slot| - lo
    decreases |c.slot| - lo
  {
    if lo == |c.slot| then {} else Slots(c, lo + 1) + {c.slot[lo]}
  }

  /**
    Without users, commit finds a buffer for each of the log's blocks exactly when the
    list does not pin them all.
   */
  lemma ReadyExactly(at: Place, c: Cache)
    requires Sound(at, c) && c.installed == 0 && c.lh != [] && forall b | 0 <= b < NBUF :: c.users[b] == 0
    ensures AllReady(at, c, 0, |c.lh| + 1) <==> |c.lh| < NBUF
  {
    hide Unique;
    PinnedCount(at, c);
    if |c.lh| < NBUF {
      forall i: nat | i < |c.lh| + 1 ensures Ready(c, LogKey(at, i)) {
        IdleReady(at, c, LogKey(at, i));
      }
    } else {
      forall b: nat | b < NBUF ensures !Serves(c, b, LogKey(at, 0)) {
        AllBuffers(c.pinned, b);
        assert Waits(c, b);
      }
      assert !Ready(c, LogKey(at, 0));
    }
  }

  lemma IdleReady(at: Place, c: Cache, k: Key)
    requires Sound(at, c) && c.installed == 0 && |c.lh| < NBUF && forall b | 0 <= b < NBUF :: c.users[b] == 0
    ensures Ready(c, k)
  {
    hide Unique, Range;
    PinnedCount(at, c);
    if b :| 0 <= b < NBUF && b !in c.pinned {
      assert Serves(c, b, k);
    } else {
      SubsetSize(Range(0, NBUF), c.pinned);
      assert false;
    }
  }

  lemma PinnedCount(at: Place, c: Cache)
    requires Sound(at, c)
    ensures |c.pinned| == |c.lh| - c.installed
  {
    hide Unique;
    forall i, j | c.installed <= i < j < |c.slot| ensures c.slot[i] != c.slot[j] {
      assert c.bufs[c.slot[i]].key != c.bufs[c.slot[j]].key;
    }
    forall b | b in c.pinned ensures b in Slots(c, c.installed) {
      assert Waits(c, b);
    }
    assert c.pinned == Slots(c, c.installed);
  }

  // ---------------------------------------------------------------------
  // The disk of the crash proofs

  function Lay(at: Place): L.Layout { L.Layout(at.start, at.size) }

  /** The log's device as the crash proofs see it. */
  ghost function DiskOf(at: Place, disk: map<Key, Data>): L.Disk {
    map k | k in disk && k.dev == at.dev :: k.blockno := Decoded(at.start, k.blockno, disk[k])
  }

  ghost function Traced(at: Place, k: Key, data: Data): seq<L.Write> {
    if k.dev == at.dev then [L.Write(k.blockno, Decoded(at.start, k.blockno, data))] else []
  }

  lemma DiskStep(at: Place, disk: map<Key, Data>, k: Key, data: Data, d0: L.Disk, trace: seq<L.Write>)
    requires DiskOf(at, disk) == L.Apply(d0, trace)
    ensures DiskOf(at, disk[k := data]) == L.Apply(d0, trace + Traced(at, k, data))
  {
    hide Decoded;
    L.ApplyAppend(d0, trace, Traced(at, k, data));
    if k.dev == at.dev {
      var d := DiskOf(at, disk);
      assert L.Apply(d, Traced(at, k, data)) == d[k.blockno := Decoded(at.start, k.blockno, data)];
      DiskAt(at, disk[k := data]);
      DiskAt(at, disk);
      assert DiskOf(at, disk[k := data]) == d[k.blockno := Decoded(at.start, k.blockno, data)];
    } else {
      assert DiskOf(at, disk[k := data]) == DiskOf(at, disk);
    }
  }

  lemma DiskAt(at: Place, disk: map<Key, Data>)
    ensures forall x :: x in DiskOf(at, disk) <==> Key(at.dev, x) in disk
    ensures forall x | x in DiskOf(at, disk) :: DiskOf(at, disk)[x] == Decoded(at.start, x, disk[Key(at.dev, x)])
  {
  }

  /** The listed blocks with their latest contents. */
  ghost function Pending(at: Place, c: Cache): L.Txn {
    L.Txn(c.lh, seq(|c.lh|, i requires 0 <= i < |c.lh| => Latest(at, c, c.lh[i])))
  }

  ghost function Latest(at: Place, c: Cache, x: nat): L.Block {
    if Key(at.dev, x) in FlatMap(c.bufs, c.disk) then L.Data(FlatMap(c.bufs, c.disk)[Key(at.dev, x)])
      else L.Data(Zeros())
  }

  lemma PendingValid(at: Place, c: Cache)
    requires Sound(at, c)
    ensures Pending(at, c).Valid(Lay(at))
  {
  }

  /**
    What a crash at any point of commit leaves on the disk: commit's writes go through the
    cache in the order of the crash proofs, so it is the old image or the whole transaction.
   */
  lemma CacheCrash(at: Place, c: Cache, home: L.Disk, k: nat, torn: Option<L.Block>)
    requires Sound(at, c) && c.lh != [] && L.Clean(Lay(at), DiskOf(at, c.disk), home) && k <= 2 * |c.lh| + 2
    ensures |L.CommitWrites(Lay(at), Pending(at, c))| == 2 * |c.lh| + 2
    ensures var d' := L.Crash(Lay(at), DiskOf(at, c.disk), L.CommitWrites(Lay(at), Pending(at, c)), k, torn);
            if k <= |c.lh| then L.Clean(Lay(at), d', home)
            else if k <= 2 * |c.lh| + 1 then L.Logged(Lay(at), d', home, Pending(at, c))
            else L.Clean(Lay(at), d', L.Installed(home, Pending(at, c)))
  {
    PendingValid(at, c);
    L.CommitCrash(Lay(at), DiskOf(at, c.disk), home, Pending(at, c), k, torn);
  }

  /** One more user of buffer b. */
  ghost function Shared(c: Cache, b: nat): Cache
    requires b < |c.bufs| && b < |c.users|
  {
    c.(bufs := c.bufs[b := c.bufs[b].(refcnt := c.bufs[b].refcnt + 1)], users := c.users[b := c.users[b] + 1])
  }

  lemma SharedKeeps(at: Place, c: Cache, b: nat)
    requires Sound(at, c) && b < NBUF
    ensures var c' := Shared(c, b); Sound(at, c') && SameFlat(c, c') && PinsKept(c, c')
  {
    hide Flat, LogInv, Unique;
    CountFlat(c.bufs, Shared(c, b).bufs, c.disk, b);
    LogFrame(at, c, Shared(c, b));
  }

  /** The list does not mind what happens to buffers it does not wait for. */
  lemma LogFrame(at: Place, c: Cache, c': Cache)
    requires LogInv(at, c) && SameLog(c, c') && |c'.bufs| == |c.bufs| && c.disk.Keys <= c'.disk.Keys
    requires forall j | j in c.pinned && j < |c.bufs| :: c'.bufs[j].key == c.bufs[j].key
    ensures LogInv(at, c')
  {
    forall b | b in c'.pinned ensures Waits(c', b) {
      assert Waits(c, b);
    }
  }

  /** The unreferenced buffer b taken over for block k. */
  ghost function Recycled(c: Cache, b: nat, k: Key): Cache
    requires b < |c.bufs| && b < |c.users|
  {
    c.(bufs := c.bufs[b := Buf(k, false, 1, c.bufs[b].data)], users := c.users[b := c.users[b] + 1])
  }

  lemma RecycledKeeps(at: Place, c: Cache, b: nat, k: Key)
    requires Sound(at, c) && b < NBUF && c.bufs[b].refcnt == 0 && k.dev != 0
    requires forall i | 0 <= i < NBUF :: c.bufs[i].key != k
    ensures var c' := Recycled(c, b, k); Sound(at, c') && SameFlat(c, c') && PinsKept(c, c') && b !in c.pinned
  {
    hide Flat, LogInv, Unique;
    RecycleFlat(c.bufs, c.disk, b, k);
    LogFrame(at, c, Recycled(c, b, k));
  }

  /** A buffer that is new to its block is filled from the disk. */
  ghost function Loaded(c: Cache, b: nat): Cache
    requires b < |c.bufs| && c.bufs[b].key in c.disk
  {
    c.(bufs := c.bufs[b := c.bufs[b].(valid := true, data := c.disk[c.bufs[b].key])])
  }

  lemma LoadedKeeps(at: Place, c: Cache, b: nat)
    requires Sound(at, c) && b < NBUF && !c.bufs[b].valid && c.bufs[b].key.dev != 0 && c.bufs[b].key in c.disk
    ensures var c' := Loaded(c, b); Sound(at, c') && SameFlat(c, c') && PinsKept(c, c')
  {
    hide Flat, LogInv, Unique;
    LoadFlat(c.bufs, c.disk, b);
    LogFrame(at, c, Loaded(c, b));
  }

  ghost function Edited(c: Cache, b: nat, data: Data): Cache
    requires b < |c.bufs|
  {
    c.(bufs := c.bufs[b := c.bufs[b].(data := data)], modified := c.modified + {b})
  }

  lemma EditedKeeps(at: Place, c: Cache, b: nat, data: Data)
    requires Sound(at, c) && b < NBUF && c.users[b] > 0 && c.bufs[b].valid
    ensures var c' := Edited(c, b, data);
            Sound(at, c') && FlatMap(c'.bufs, c'.disk) == FlatMap(c.bufs, c.disk)[c.bufs[b].key := data]
  {
    hide Flat, LogInv, Unique;
    ModifyFlat(c.bufs, c.disk, b, data);
    LogFrame(at, c, Edited(c, b, data));
  }

  ghost function Written(c: Cache, b: nat): Cache
    requires b < |c.bufs|
  {
    c.(disk := c.disk[c.bufs[b].key := c.bufs[b].data], modified := c.modified - {b})
  }

  lemma WrittenKeeps(at: Place, c: Cache, b: nat)
    requires Sound(at, c) && b < NBUF && c.bufs[b].valid
    ensures var c' := Written(c, b); Sound(at, c') && SameFlat(c, c')
  {
    hide Flat, LogInv;
    InstallFlat(c.bufs, c.disk, b);
    LogFrame(at, c, Written(c, b));
    var c' := Written(c, b);
    forall i | 0 <= i < NBUF && c'.bufs[i].valid ensures c'.bufs[i].data == c'.disk[c'.bufs[i].key] || i in c'.pinned
      || i in c'.modified {
      if c.bufs[i].key == c.bufs[b].key { assert i == b; }
    }
  }

  /** The block of buffer b joins the list and the buffer is pinned. */
  ghost function Listed(c: Cache, b: nat): Cache
    requires b < |c.bufs|
  {
    c.(bufs := c.bufs[b := c.bufs[b].(refcnt := c.bufs[b].refcnt + 1)], lh := c.lh + [c.bufs[b].key.blockno],
       slot := c.slot + [b], pinned := c.pinned + {b}, modified := c.modified - {b})
  }

  lemma ListedKeeps(at: Place, c: Cache, b: nat)
    requires Sound(at, c) && c.installed == 0 && b < NBUF && c.users[b] > 0 && c.bufs[b].valid
    requires |c.lh| < at.size - 1 && |c.lh| < LOGSIZE && c.bufs[b].key.blockno < UINT
    requires c.bufs[b].key.dev == at.dev && Home(at, c.bufs[b].key.blockno) && c.bufs[b].key.blockno !in c.lh
    ensures var c' := Listed(c, b); Sound(at, c') && SameFlat(c, c') && PinsKept(c, c') && b !in c.pinned
  {
    hide Flat;
    var c' := Listed(c, b);
    CountFlat(c.bufs, c'.bufs, c.disk, b);
    assert b in c.pinned ==> Waits(c, b);
    forall j | j in c'.pinned ensures Waits(c', j) {
      if j == b {
        assert c'.slot[|c.slot|] == b;
      } else {
        assert Waits(c, j);
        var i :| c.installed <= i < |c.slot| && c.slot[i] == j;
        assert c'.slot[i] == j;
      }
    }
  }

  /** A listed block is logged again: its buffer is pinned already. */
  lemma AbsorbedKeeps(at: Place, c: Cache, b: nat)
    requires Sound(at, c) && c.installed == 0 && b < NBUF && c.bufs[b].key.dev == at.dev
    requires c.bufs[b].key.blockno in c.lh
    ensures b in c.pinned
    ensures var c' := c.(modified := c.modified - {b}); Sound(at, c') && SameFlat(c, c') && PinsKept(c, c')
  {
    var i :| 0 <= i < |c.lh| && c.lh[i] == c.bufs[b].key.blockno;
    assert c.bufs[c.slot[i]].key == c.bufs[b].key;
    LogFrame(at, c, c.(modified := c.modified - {b}));
  }

  /** The next listed block is installed and its buffer unpinned. */
  ghost function Unpinned(c: Cache, b: nat): Cache
    requires b < |c.bufs| && c.bufs[b].refcnt > 0
  {
    c.(bufs := c.bufs[b := c.bufs[b].(refcnt := c.bufs[b].refcnt - 1)], pinned := c.pinned - {b},
      installed := c.installed + 1)
  }

  lemma UnpinnedKeeps(at: Place, c: Cache, b: nat)
    requires Sound(at, c) && c.installed < |c.lh| && b == c.slot[c.installed] && b !in c.modified
    requires b < NBUF && c.bufs[b].key in c.disk && c.bufs[b].data == c.disk[c.bufs[b].key]
    ensures b in c.pinned && c.bufs[b].refcnt > 0
    ensures var c' := Unpinned(c, b); Sound(at, c') && SameFlat(c, c') && PinsKept(c, c')
  {
    hide Flat;
    var c' := Unpinned(c, b);
    CountFlat(c.bufs, c'.bufs, c.disk, b);
    forall j | j in c'.pinned ensures Waits(c', j) {
      assert Waits(c, j);
      var i :| c.installed <= i < |c.slot| && c.slot[i] == j;
      assert c'.slot[i] == j && i != c.installed;
    }
    forall i | c'.installed <= i < |c'.lh| ensures c'.slot[i] != b {
      assert c.bufs[c.slot[i]].key == Key(at.dev, c.lh[i]);
    }
  }

  /** One user less of buffer b. */
  ghost function Released(c: Cache, b: nat): Cache
    requires b < |c.bufs| && b < |c.users| && c.users[b] > 0 && c.bufs[b].refcnt > 0
  {
    c.(bufs := c.bufs[b := c.bufs[b].(refcnt := c.bufs[b].refcnt - 1)], users := c.users[b := c.users[b] - 1])
  }

  lemma ReleasedKeeps(at: Place, c: Cache, b: nat)
    requires Sound(at, c) && b < NBUF && c.users[b] > 0 && b !in c.modified
    ensures c.bufs[b].refcnt > 0
    ensures var c' := Released(c, b); Sound(at, c') && SameFlat(c, c') && PinsKept(c, c')
  {
    hide Flat, LogInv, Unique;
    CountFlat(c.bufs, Released(c, b).bufs, c.disk, b);
    LogFrame(at, c, Released(c, b));
  }

  /** Nothing is cached and nothing is logged. */
  ghost function Boot(image: map<Key, Data>): Cache {
    Cache(seq(NBUF, _ => Buf(Key(0, 0), false, 0, Zeros())), image, [], seq(NBUF, _ => 0), {}, {}, [], 0)
  }

  lemma BootSound(image: map<Key, Data>, place: Place)
    requires place.dev != 0 && place.size > 0
    requires forall x: nat | place.start <= x < place.start + place.size :: Key(place.dev, x) in image
    ensures Sound(place, Boot(image))
  {
  }

  class Bcache {
    const at: Place
    var c: Cache
    var next: seq<nat>
    var prev: seq<nat>
    ghost var order: seq<nat>
    ghost var stamp: seq<nat>
    ghost var clock: nat
    ghost const disk0: L.Disk
    ghost var trace: seq<L.Write>    // what bwrite has written to the log's device, in order

    /** The ring holds every buffer once, most recently released first. */
    ghost predicate RingInv()
      reads this
    {
      && Ring(next, prev, order) && |order| == NBUF && |stamp| == NBUF
      && (forall b | 0 <= b < NBUF :: stamp[b] < clock)
      && (forall i, j | 0 <= i < j < NBUF :: stamp[order[i]] > stamp[order[j]])
    }

    ghost predicate Valid()
      reads this
    {
      RingInv() && Sound(at, c) && DiskOf(at, c.disk) == L.Apply(disk0, trace)
    }

    /** binit: each buffer in turn is linked in at the front.  The log's list is empty. */
    constructor Binit(image: map<Key, Data>, place: Place)
      requires place.dev != 0 && place.size > 0
      requires forall x: nat | place.start <= x < place.start + place.size :: Key(place.dev, x) in image
      ensures Valid() && at == place && trace == []
      ensures c == Boot(image)
    {
      at := place;
      next := seq(NBUF + 1, _ => HEAD);
      prev := seq(NBUF + 1, _ => HEAD);
      c := Cache(seq(NBUF, _ => Buf(Key(0, 0), false, 0, Zeros())), image, [], seq(NBUF, _ => 0), {}, {}, [], 0);
      order, stamp, clock := [], seq(NBUF, i => i), NBUF;
      disk0, trace := DiskOf(place, image), [];
      BootSound(image, place);
      new;
      hide Sound, DiskOf;
      var b := 0;
      while b < NBUF
        invariant 0 <= b <= NBUF && Ring(next, prev, order) && |order| == b
        invariant forall i | 0 <= i < b :: order[i] == b - 1 - i
        invariant clock == NBUF && stamp == seq(NBUF, i => i) && trace == []
        invariant c == Boot(image)
      {
        LinkFront(next, prev, order, b);
        var first := next[HEAD];
        next := next[b := first];
        prev := prev[b := HEAD];
        prev := prev[first := b];
        next := next[HEAD := b];
        order := [b] + order;
        b := b + 1;
      }
    }

    /** The buffer that caches block k, searching from the most recently used end. */
    method FindCached(k: Key) returns (r: Option<nat>)
      requires RingInv() && |c.bufs| == NBUF
      ensures r.Some? ==> r.value < NBUF && c.bufs[r.value].key == k
      ensures r.None? ==> forall b | 0 <= b < NBUF :: c.bufs[b].key != k
    {
      var b := next[HEAD];
      ghost var i := 0;
      assert At(order, -1) == HEAD;
      while b != HEAD
        invariant 0 <= i <= NBUF && b == At(order, i)
        invariant forall j | 0 <= j < i :: c.bufs[order[j]].key != k
        decreases NBUF - i
      {
        if c.bufs[b].key == k {
          return Some(b);
        }
        b := next[b];
        i := i + 1;
      }
      forall d | 0 <= d < NBUF ensures c.bufs[d].key != k {
        RingHasAll(order, d);
      }
      return None;
    }

    /** The unreferenced buffer released longest ago, searching from the least recently used end. */
    method FindUnused() returns (r: Option<nat>)
      requires RingInv() && |c.bufs| == NBUF
      ensures r.Some? ==> r.value < NBUF && c.bufs[r.value].refcnt == 0
      ensures r.Some? ==> forall b | 0 <= b < NBUF && c.bufs[b].refcnt == 0 :: stamp[r.value] <= stamp[b]
      ensures r.None? ==> forall b | 0 <= b < NBUF :: c.bufs[b].refcnt > 0
    {
      var b := prev[HEAD];
      ghost var i := NBUF - 1;
      assert At(order, NBUF) == HEAD;
      while b != HEAD
        invariant -1 <= i < NBUF && b == At(order, i)
        invariant forall j | i < j < NBUF :: c.bufs[order[j]].refcnt > 0
        decreases i + 1
      {
        if c.bufs[b].refcnt == 0 {
          forall d | 0 <= d < NBUF && c.bufs[d].refcnt == 0 ensures stamp[b] <= stamp[d] {
            RingHasAll(order, d);
          }
          return Some(b);
        }
        b := prev[b];
        i := i - 1;
      }
      forall d | 0 <= d < NBUF ensures c.bufs[d].refcnt > 0 {
        RingHasAll(order, d);
      }
      return None;
    }

    /**
      bget: a buffer for block k with one more user.  A block that is not cached takes
      over the least recently used unreferenced buffer; None is "bget: no buffers".
     */
    method Bget(k: Key) returns (r: Option<nat>)
      requires Valid() && k.dev != 0
      modifies this`c
      ensures Valid() && SameFlat(old(c), c) && PinsKept(old(c), c)
      ensures r.None? ==> c == old(c) && forall b | 0 <= b < NBUF :: c.bufs[b].key != k && c.bufs[b].refcnt > 0
      ensures r.Some? ==>
                var b := r.value;
                && b < NBUF && b < |old(c).bufs| && b < |old(c).users|
                && c == (if old(c).bufs[b].key == k then Shared(old(c), b) else Recycled(old(c), b, k))
                && (old(c).bufs[b].key != k ==>
                      && old(c).bufs[b].refcnt == 0 && b !in c.pinned
                      && (forall j | 0 <= j < NBUF :: old(c).bufs[j].key != k)
                      && (forall j | 0 <= j < NBUF && old(c).bufs[j].refcnt == 0 :: stamp[b] <= stamp[j]))
    {
      hide Ring, Unique, LogInv, FlatMap, PinsKept;
      r := FindCached(k);
      if r.Some? {
        var b := r.value;
        SharedKeeps(at, c, b);
        c := c.(bufs := c.bufs[b := c.bufs[b].(refcnt := c.bufs[b].refcnt + 1)], users := c.users[b := c.users[b] + 1]);
        return;
      }
      r := FindUnused();
      if r.None? {
        NothingChanged(c);
        return;
      }
      var b := r.value;
      RecycledKeeps(at, c, b, k);
      c := c.(bufs := c.bufs[b := Buf(k, false, 1, c.bufs[b].data)], users := c.users[b := c.users[b] + 1]);
    }

    /** bread: the latest contents of block k, reading the disk if the buffer is new. */
    method Bread(k: Key) returns (r: Option<nat>)
      requires Valid() && k.dev != 0 && k in c.disk
      modifies this`c
      ensures Valid() && SameFlat(old(c), c) && PinsKept(old(c), c)
      ensures r.None? <==> !Ready(old(c), k)
      ensures r.None? ==> c == old(c)
      ensures r.Some? ==>
                var b := r.value;
                && b < NBUF && c.bufs[b].key == k && c.bufs[b].valid
                  && c.bufs[b].data == FlatMap(old(c).bufs, old(c).disk)[k]
                && Serves(old(c), b, k) && (old(c).users[b] > 0 ==> old(c).bufs[b].key == k)
                && c == old(c).(bufs := old(c).bufs[b := c.bufs[b]], users := old(c).users[b := old(c).users[b] + 1])
    {
      hide Ring, Unique, LogInv, FlatMap, PinsKept;
      r := Bget(k);
      if r.None? {
        return;
      }
      var b := r.value;
      assert Serves(old(c), b, k);
      ghost var mid := c;
      if !c.bufs[b].valid {
        LoadedKeeps(at, c, b);
        c := c.(bufs := c.bufs[b := c.bufs[b].(valid := true, data := c.disk[k])]);
        PinsTransitive(old(c), mid, c);
      }
      CachedFlat(at, c, b);
    }

    /** A user of the buffer changes its contents: that one block now reads differently. */
    method Modify(b: nat, data: Data)
      requires Valid() && b < NBUF && c.users[b] > 0 && c.bufs[b].valid
      modifies this`c
      ensures Valid() && c == Edited(old(c), b, data)
      ensures FlatMap(c.bufs, c.disk) == FlatMap(old(c).bufs, old(c).disk)[c.bufs[b].key := data]
    {
      hide Ring, Unique, LogInv, FlatMap;
      EditedKeeps(at, c, b, data);
      c := c.(bufs := c.bufs[b := c.bufs[b].(data := data)], modified := c.modified + {b});
    }

    /** bwrite: the buffer's data goes to its block on disk; no block reads differently. */
    method Bwrite(b: nat)
      requires Valid() && b < NBUF && c.bufs[b].valid
      modifies this`c, this`trace
      ensures Valid() && SameFlat(old(c), c) && c == Written(old(c), b)
      ensures trace == old(trace) + Traced(at, c.bufs[b].key, c.bufs[b].data)
    {
      hide Ring, Unique, LogInv, FlatMap, DiskOf, Traced;
      WrittenKeeps(at, c, b);
      DiskStep(at, c.disk, c.bufs[b].key, c.bufs[b].data, disk0, trace);
      trace := trace + Traced(at, c.bufs[b].key, c.bufs[b].data);
      c := c.(disk := c.disk[c.bufs[b].key := c.bufs[b].data], modified := c.modified - {b});
    }

    /**
      log_write: the scan of the log's list finds the block or reaches its end; only then is
      the block listed and its buffer pinned.  Refused exactly by "too big a transaction".
     */
    method LogWrite(b: nat) returns (ok: bool)
      requires Valid() && c.installed == 0 && b < NBUF && c.users[b] > 0 && c.bufs[b].valid
      requires c.bufs[b].key.dev == at.dev && Home(at, c.bufs[b].key.blockno) && c.bufs[b].key.blockno < UINT
      modifies this`c
      ensures Valid() && SameFlat(old(c), c) && PinsKept(old(c), c)
      ensures ok <==> |old(c).lh| < LOGSIZE && |old(c).lh| < at.size - 1
      ensures !ok ==> c == old(c)
      ensures ok ==>
                && b < |old(c).bufs| && (c.bufs[b].key.blockno in old(c).lh <==> b in old(c).pinned)
                && c == if b in old(c).pinned then old(c).(modified := old(c).modified - {b}) else Listed(old(c), b)
    {
      hide Ring, Unique, LogInv, FlatMap, PinsKept;
      NothingChanged(c);
      if |c.lh| >= LOGSIZE || |c.lh| >= at.size - 1 {
        return false;
      }
      var i := 0;
      while i < |c.lh| && c.lh[i] != c.bufs[b].key.blockno
        invariant 0 <= i <= |c.lh| && forall j | 0 <= j < i :: c.lh[j] != c.bufs[b].key.blockno
      {
        i := i + 1;
      }
      if i == |c.lh| {
        ListedKeeps(at, c, b);
        c := c.(bufs := c.bufs[b := c.bufs[b].(refcnt := c.bufs[b].refcnt + 1)], lh := c.lh + [c.bufs[b].key.blockno],
                slot := c.slot + [b], pinned := c.pinned + {b}, modified := c.modified - {b});
      } else {
        AbsorbedKeeps(at, c, b);
        c := c.(modified := c.modified - {b});
      }
      return true;
    }

    /** bunpin of the next listed block's buffer, whose data is on the disk. */
    method Bunpin(b: nat)
      requires Valid() && c.installed < |c.lh| && |c.slot| == |c.lh| && b == c.slot[c.installed] && b !in c.modified
      requires b < NBUF && c.bufs[b].key in c.disk && c.bufs[b].data == c.disk[c.bufs[b].key]
      modifies this`c
      ensures Valid() && SameFlat(old(c), c) && PinsKept(old(c), c) && b in old(c).pinned
      ensures old(c).bufs[b].refcnt > 0 && c == Unpinned(old(c), b)
    {
      hide Ring, Unique, LogInv, FlatMap, PinsKept;
      UnpinnedKeeps(at, c, b);
      c := c.(bufs := c.bufs[b := c.bufs[b].(refcnt := c.bufs[b].refcnt - 1)], pinned := c.pinned - {b},
        installed := c.installed + 1);
    }

    /**
      brelse by a user that has logged or written its changes.  Dropping the last reference
      moves the buffer to the front of the ring.
     */
    method Brelse(b: nat)
      requires Valid() && b < NBUF && c.users[b] > 0 && b !in c.modified
      modifies this`c, this`next, this`prev, this`order, this`stamp, this`clock
      ensures Valid() && SameFlat(old(c), c) && PinsKept(old(c), c)
      ensures old(c).bufs[b].refcnt > 0 && c == Released(old(c), b)
      ensures c.bufs[b].refcnt > 0 ==> order == old(order) && stamp == old(stamp)
      ensures c.bufs[b].refcnt == 0 ==> order[0] == b && stamp == old(stamp)[b := old(clock)]
    {
      hide Ring, Unique, LogInv, FlatMap, PinsKept;
      ReleasedKeeps(at, c, b);
      c := c.(bufs := c.bufs[b := c.bufs[b].(refcnt := c.bufs[b].refcnt - 1)], users := c.users[b := c.users[b] - 1]);
      if c.bufs[b].refcnt == 0 {
        MoveToFront(b);
      }
    }

    method MoveToFront(b: nat)
      requires RingInv() && b < NBUF
      modifies this`next, this`prev, this`order, this`stamp, this`clock
      ensures RingInv() && order[0] == b && stamp == old(stamp)[b := old(clock)]
    {
      hide Ring;
      ghost var k := Position(next, prev, order, b);
      MoveRing(next, prev, order, k);
      MoveStamp(next, prev, order, k, stamp, clock);
      var n, p := next[b], prev[b];
      prev := prev[n := p];
      next := next[p := n];
      var first := next[HEAD];
      next := next[b := first];
      prev := prev[b := HEAD];
      prev := prev[first := b];
      next := next[HEAD := b];
      order := [b] + Without(order, k);
      stamp := stamp[b := clock];
      clock := clock + 1;
    }

    /** One turn of write_log: the cached block is copied to its log block and written there. */
    method LogOne(tail: nat) returns (ok: bool)
      requires Valid() && c.installed == 0 && c.modified == {} && tail < |c.lh| && Key(at.dev, c.lh[tail]) in c.disk
      modifies this
      ensures Valid() && SameLog(old(c), c)
      ensures ok <==> Ready(old(c), LogKey(at, 1 + tail))
      ensures !ok ==> c == old(c)
      ensures ok ==> && Copied(old(c), c, Key(at.dev, old(c).lh[tail]), LogKey(at, 1 + tail)) && PinsKept(old(c), c)
                     && MoreReady(old(c), c) && MoreReady(c, old(c))
                     && trace == old(trace) + [L.Write(at.start + 1 + tail, Latest(at, old(c), old(c).lh[tail]))]
    {
      hide Ring, FlatMap, Unique, CacheInv, LogInv, PinsKept, DiskOf, Ready, MoreReady, KeysKept, HeadBlock, L.Apply,
        RingInv;
      ghost var s := c;
      LogBlock(at, c, tail);
      var to := Bread(LogKey(at, 1 + tail));
      if to.None? {
        return false;
      }
      ghost var s1 := c;
      ListedReady(at, c, tail);
      var from := Bread(Key(at.dev, c.lh[tail]));
      ghost var s2 := c;
      Lengths(at, s);
      Lengths(at, c);
      var t, f := to.value, from.value;
      assert c.bufs[t].key == LogKey(at, 1 + tail);
      InFlat(s, Key(at.dev, s.lh[tail]));
      LogUnpinned(at, c, t);
      Modify(t, c.bufs[f].data);
      Bwrite(t);
      ghost var s4 := c;
      EditPins(s2, s4, t);
      Brelse(f);
      ghost var s5 := c;
      Brelse(t);
      PinsTransitive(s, s1, s2);
      PinsTransitive(s, s2, s4);
      PinsTransitive(s, s4, s5);
      PinsTransitive(s, s5, c);
      assert c.users == s.users && c.modified == s.modified;
      TwoServed(s, s1, c, t, f, LogKey(at, 1 + tail), Key(at.dev, s.lh[tail]));
      ReadySame(at, s, c);
      return true;
    }

    /**
      write_log: every listed block's latest contents are in its log block, and nothing else
      has changed.  It fails exactly if some log block meets "bget: no buffers".
     */
    method WriteLog() returns (ok: bool)
      requires Valid() && c.installed == 0 && c.modified == {}
      modifies this
      ensures Valid() && SameLog(old(c), c)
      ensures ok <==> AllReady(at, old(c), 1, |c.lh| + 1)
      ensures !ok ==> Full(c)
      ensures ok ==> && c.users == old(c).users && c.modified == {} && PinsKept(old(c), c)
                     && SameHomes(at, old(c), c) && CopiedUpTo(at, c, |c.lh|)
                     && MoreReady(old(c), c) && MoreReady(c, old(c))
                     && trace == old(trace) + L.LogWrites(Lay(at), Pending(at, old(c)).data)
    {
      hide Ring, FlatMap, CacheInv, LogInv, PinsKept, DiskOf, Ready, Latest, L.Apply;
      NothingChanged(c);
      ghost var ws := L.LogWrites(Lay(at), Pending(at, c).data);
      var tail := 0;
      while tail < |c.lh|
        invariant 0 <= tail <= |c.lh| && Valid() && SameLog(old(c), c)
        invariant c.users == old(c).users && c.modified == {} && PinsKept(old(c), c)
        invariant SameHomes(at, old(c), c) && CopiedUpTo(at, c, tail)
        invariant MoreReady(old(c), c) && MoreReady(c, old(c)) && AllReady(at, old(c), 1, tail + 1)
        invariant trace == old(trace) + ws[..tail]
      {
        ghost var s := c;
        ListedOnDisk(at, c, tail);
        LogBlock(at, c, tail);
        LatestSame(at, old(c), c, tail);
        NeverReady(c, LogKey(at, 1 + tail));
        ok := LogOne(tail);
        if !ok {
          return;
        }
        CopiedMore(at, old(c), s, c, tail);
        PinsTransitive(old(c), s, c);
        assert ws[..tail + 1] == ws[..tail] + [ws[tail]];
        tail := tail + 1;
      }
      assert ws[..tail] == ws;
      ok := true;
    }

    /** write_head: the header block gets the list; it fails exactly if it meets "bget: no buffers". */
    method WriteHead() returns (ok: bool, ghost head: Data)
      requires Valid() && c.modified == {}
      modifies this
      ensures Valid() && SameLog(old(c), c)
      ensures ok <==> Ready(old(c), LogKey(at, 0))
      ensures !ok ==> c == old(c)
      ensures ok ==> && c.users == old(c).users && c.modified == {} && PinsKept(old(c), c)
                     && MoreReady(old(c), c) && MoreReady(c, old(c)) && HeadBlock(head) == L.Head(c.lh)
                     && c.disk == old(c).disk[LogKey(at, 0) := head]
                     && FlatMap(c.bufs, c.disk) == FlatMap(old(c).bufs, old(c).disk)[LogKey(at, 0) := head]
                     && trace == old(trace) + [L.Write(at.start, L.Head(c.lh))]
    {
      hide Ring, FlatMap, Unique, CacheInv, LogInv, PinsKept, DiskOf, Ready, MoreReady, KeysKept, HeadBlock, L.Apply;
      ghost var s := c;
      head := Zeros();
      HeadBlockThere(at, c);
      var r := Bread(LogKey(at, 0));
      if r.None? {
        return false, head;
      }
      ghost var s1 := c;
      Lengths(at, s);
      Lengths(at, c);
      var b := r.value;
      LogUnpinned(at, c, b);
      ListFits(at, c);
      var data := Header(c.bufs[b].data);
      head := data;
      Modify(b, data);
      Bwrite(b);
      ghost var s2 := c;
      EditPins(s1, s2, b);
      Brelse(b);
      PinsTransitive(s, s1, s2);
      PinsTransitive(s, s2, c);
      assert c.users == s.users && c.modified == s.modified;
      OneServed(s, c, b, LogKey(at, 0));
      ReadySame(at, s, c);
      return true, head;
    }

    /** The bytes of the header, stored over those of the block. */
    method Header(block: Data) returns (data: Data)
      requires |c.lh| <= LOGSIZE && forall i | 0 <= i < |c.lh| :: c.lh[i] < UINT
      ensures HeadBlock(data) == L.Head(c.lh)
    {
      hide Word, PutWord, HeadUpTo;
      HeadStart(block, c.lh);
      data := PutWord(block, 0, |c.lh|);
      var i := 0;
      while i < |c.lh|
        invariant 0 <= i <= |c.lh| && HeadUpTo(data, c.lh, i)
      {
        HeadMore(data, c.lh, i);
        data := PutWord(data, 4 + 4 * i, c.lh[i]);
        i := i + 1;
      }
      HeadBack(data, c.lh);
    }

    /** One turn of install_trans: the listed block goes home and its buffer is unpinned. */
    method InstallOne(tail: nat) returns (ok: bool)
      requires Valid() && c.modified == {} && c.installed == tail < |c.lh| && CopiedUpTo(at, c, |c.lh|)
      modifies this
      ensures Valid() && c.lh == old(c).lh && c.slot == old(c).slot
      ensures ok <==> Ready(old(c), LogKey(at, 1 + tail))
      ensures !ok ==> c == old(c)
      ensures ok ==>
                var k := Key(at.dev, c.lh[tail]);
                && c.installed == tail + 1 && c.users == old(c).users && c.modified == {} && SameFlat(old(c), c)
                && k in FlatMap(c.bufs, c.disk) && c.disk == old(c).disk[k := FlatMap(c.bufs, c.disk)[k]]
                && MoreReady(old(c), c) && trace == old(trace) + [L.Write(c.lh[tail], Latest(at, old(c), c.lh[tail]))]
    {
      hide Ring, FlatMap, Unique, CacheInv, LogInv, PinsKept, DiskOf, Ready, MoreReady, KeysKept, HeadBlock, L.Apply,
        CopiedUpTo, RingInv;
      ghost var s := c;
      CopyAt(at, c, tail);
      ListedOnDisk(at, c, tail);
      LogBlock(at, c, tail);
      var lbuf := Bread(LogKey(at, 1 + tail));
      if lbuf.None? {
        return false;
      }
      ghost var s1 := c;
      ListedReady(at, c, tail);
      var dbuf := Bread(Key(at.dev, c.lh[tail]));
      Lengths(at, s);
      Lengths(at, s1);
      Lengths(at, c);
      var l, d := lbuf.value, dbuf.value;
      SlotOf(at, c, d);
      Modify(d, c.bufs[l].data);
      assert FlatMap(c.bufs, c.disk) == FlatMap(s.bufs, s.disk);
      Bwrite(d);
      Bunpin(d);
      Brelse(l);
      Brelse(d);
      assert c.users == s.users && c.modified == s.modified;
      TwoServed(s, s1, c, l, d, LogKey(at, 1 + tail), Key(at.dev, s.lh[tail]));
      FewerRefs(at, s, c);
      return true;
    }

    /**
      install_trans: all listed blocks are home, no buffer is pinned, and no block reads
      differently.  It fails only if a log block meets "bget: no buffers".
     */
    method InstallTrans() returns (ok: bool)
      requires Valid() && c.installed == 0 && c.modified == {} && CopiedUpTo(at, c, |c.lh|)
      modifies this
      ensures Valid() && c.lh == old(c).lh
      ensures AllReady(at, old(c), 1, |c.lh| + 1) ==> ok
      ensures !ok ==> Full(c)
      ensures ok ==> && c.installed == |c.lh| && c.pinned == {} && c.users == old(c).users && c.modified == {}
                     && SameFlat(old(c), c) && HomeUpTo(at, c, |c.lh|) && MoreReady(old(c), c)
                     && trace == old(trace) + L.HomeWrites(Pending(at, old(c)))
    {
      hide Ring, FlatMap, CacheInv, LogInv, PinsKept, DiskOf, Ready, L.Apply;
      ghost var ws := L.HomeWrites(Pending(at, c));
      var tail := 0;
      while tail < |c.lh|
        invariant Valid() && c.installed == tail <= |c.lh| && c.lh == old(c).lh && c.users == old(c).users
        invariant c.modified == {}
        invariant SameFlat(old(c), c) && CopiedUpTo(at, c, |c.lh|) && HomeUpTo(at, c, c.installed)
        invariant MoreReady(old(c), c) && trace == old(trace) + ws[..tail]
        decreases |c.lh| - tail
      {
        ghost var s := c;
        NeverReady(c, LogKey(at, 1 + tail));
        ok := InstallOne(tail);
        if !ok {
          return;
        }
        HomeMore(at, s, c);
        assert ws[..tail + 1] == ws[..tail] + [ws[tail]];
        tail := tail + 1;
      }
      NonePinned(at, c);
      assert ws[..tail] == ws;
      ok := true;
    }

    /**
      commit on these buffers: afterwards the list is empty, nothing is pinned, every block
      outside the log reads as before, and the blocks that were listed are so on disk too.
      The writes are those of the crash proofs, in their order.  It fails exactly if one of
      the log's blocks meets "bget: no buffers"; without other users of buffers, exactly if
      the list pins them all.
     */
    method Commit() returns (ok: bool)
      requires Valid() && c.installed == 0 && c.modified == {}
      modifies this
      ensures Valid()
      ensures ok <==> old(c).lh == [] || AllReady(at, old(c), 0, |old(c).lh| + 1)
      ensures (forall b | 0 <= b < NBUF :: old(c).users[b] == 0) ==> (ok <==> |old(c).lh| < NBUF)
      ensures !ok ==> Full(c)
      ensures ok ==> && c.lh == [] && c.pinned == {} && c.installed == 0 && c.users == old(c).users && c.modified == {}
                     && SameHomes(at, old(c), c)
                     && (forall i | 0 <= i < |old(c).lh| :: AtHome(at, c, old(c).lh[i]))
                     && trace == old(trace) + L.CommitWrites(Lay(at), Pending(at, old(c)))
    {
      hide Ring, FlatMap, CacheInv, LogInv, PinsKept, CopiedUpTo, HomeUpTo, SameHomes, DiskOf, Ready, AtHome,
        HeadBlock, L.Apply,
        L.LogWrites, L.HomeWrites, Latest;
      ghost var s := c;
      NothingMoved(at, c);
      if |c.lh| == 0 {
        NonePinned(at, c);
        return true;
      }
      IdleCommit(at, c);
      ok := WriteLog();
      if !ok { return; }
      ghost var s1 := c;
      NeverReady(c, LogKey(at, 0));
      ghost var head;
      ok, head := WriteHead();
      if !ok { return; }
      ghost var s2 := c;
      HeadOnly(at, s, s1, s2, head);
      ok := InstallTrans();
      assert ok;
      ghost var s3 := c;
      ok := Erase();
      assert ok;
      SameFlatHomes(at, s, s2, s3);
      HomesTransitive(at, s, s3, c);
      ListFits(at, s);
      SamePending(at, s, s2);
    }

    /** Nobody uses a buffer, and the first n blocks are logged. */
    ghost predicate Idle(n: nat)
      reads this
    {
      && Valid() && c.lh == seq(n, j => j) && c.installed == 0 && c.modified == {} && c.users == seq(NBUF, _ => 0)
      && forall x: nat | x < 200 :: Key(1, x) in c.disk
    }

    /** One more block is read, logged and released. */
    method LogNext()
      requires at == Place(1, 100, LOGSIZE + 1) && |c.lh| < LOGSIZE && Idle(|c.lh|)
      modifies this
      ensures Idle(|old(c).lh| + 1)
    {
      hide Ring, RingInv, Sound, DiskOf, FlatMap, PinsKept, Ready, L.Apply;
      var i := |c.lh|;
      ghost var s := c;
      IdleReady(at, c, Key(1, i));
      var r := Bread(Key(1, i));
      var b := r.value;
      Lengths(at, s);
      var logged := LogWrite(b);
      Lengths(at, c);
      Brelse(b);
      assert c.users == s.users;
    }

    /** The end of commit: the list is emptied and the empty header written. */
    method Erase() returns (ok: bool)
      requires Valid() && c.installed == |c.lh| && c.pinned == {} && c.modified == {} && HomeUpTo(at, c, |c.lh|)
      modifies this
      ensures Valid() && (ok <==> Ready(old(c), LogKey(at, 0)))
      ensures ok ==> && c.lh == [] && c.pinned == {} && c.installed == 0 && c.users == old(c).users && c.modified == {}
                     && SameHomes(at, old(c), c) && (forall i | 0 <= i < |old(c).lh| :: AtHome(at, c, old(c).lh[i]))
                     && trace == old(trace) + [L.Write(at.start, L.Head([]))]
    {
      hide Ring, FlatMap, CacheInv, LogInv, PinsKept, HomeUpTo, SameHomes, DiskOf, Ready, AtHome, HeadBlock, L.Apply;
      ghost var s := c;
      Cleared(at, s);
      c := c.(lh := [], slot := [], installed := 0);
      ghost var s1 := c;
      ghost var head;
      ok, head := WriteHead();
      if ok {
        NothingMoved(at, s1);
        HeadOnlyAgain(at, s1, s1, c, head);
        HomesFrom(at, s, s1, c);
        forall i | 0 <= i < |s.lh| ensures AtHome(at, c, s.lh[i]) {
          StillHome(at, s, s1, c, i, head);
        }
      }
    }
  }

  /**
    With the larger log that the reservation promise needs, a full transaction pins every
    buffer: this run of bread, log_write and brelse ends in "bget: no buffers" in commit.
   */
  method FullCommit() returns (ok: bool)
    ensures !ok
  {
    hide Ring, Sound, DiskOf, FlatMap, PinsKept, Ready, L.Apply, SameHomes, AtHome;
    var image := map x: nat | x < 200 :: Key(1, x) := Zeros();
    var cache := new Bcache.Binit(image, Place(1, 100, LOGSIZE + 1));
    var i := 0;
    while i < LOGSIZE
      invariant 0 <= i <= LOGSIZE && fresh(cache) && cache.at == Place(1, 100, LOGSIZE + 1) && cache.Idle(i)
    {
      cache.LogNext();
      i := i + 1;
    }
    ok := cache.Commit();
  }

  /** Two buffers were taken for two blocks, one after the other. */
  lemma TwoServed(s: Cache, s1: Cache, c: Cache, t: nat, f: nat, k: Key, k': Key)
    requires |s.bufs| == |s1.bufs| == |c.bufs| && Serves(s, t, k) && Serves(s1, f, k')
    requires s1.bufs == s.bufs[t := s1.bufs[t]] && s1.bufs[t].refcnt > 0 && s1.bufs[t].key == k != k'
    requires c.bufs[t].key == k && c.bufs[f].key == k'
    requires forall b | 0 <= b < |s.bufs| && b != t && b != f :: c.bufs[b].key == s.bufs[b].key
    ensures KeysKept(s, c)
  {
  }

  lemma OneServed(s: Cache, c: Cache, t: nat, k: Key)
    requires |s.bufs| == |c.bufs| && Serves(s, t, k) && c.bufs[t].key == k
    requires forall b | 0 <= b < |s.bufs| && b != t :: c.bufs[b].key == s.bufs[b].key
    ensures KeysKept(s, c)
  {
  }

  lemma FewerRefs(at: Place, s: Cache, c: Cache)
    requires Sound(at, s) && Sound(at, c) && c.users == s.users && c.pinned <= s.pinned && KeysKept(s, c)
    ensures MoreReady(s, c)
  {
    hide LogInv, Unique, KeysKept;
    ReadyGrows(s, c);
  }

  lemma IdleCommit(at: Place, c: Cache)
    requires Sound(at, c) && c.installed == 0 && c.lh != []
    ensures (forall b | 0 <= b < NBUF :: c.users[b] == 0) ==> (AllReady(at, c, 0, |c.lh| + 1) <==> |c.lh| < NBUF)
  {
    if forall b | 0 <= b < NBUF :: c.users[b] == 0 {
      ReadyExactly(at, c);
    }
  }

  lemma LatestSame(at: Place, s: Cache, c: Cache, i: nat)
    requires SameHomes(at, s, c) && i < |c.lh| && Home(at, c.lh[i])
    ensures Latest(at, c, c.lh[i]) == Latest(at, s, c.lh[i])
  {
    hide FlatMap;
  }

  lemma SamePending(at: Place, s: Cache, c: Cache)
    requires SameHomes(at, s, c) && c.lh == s.lh && forall i | 0 <= i < |s.lh| :: Home(at, s.lh[i])
    ensures Pending(at, c) == Pending(at, s)
  {
    hide FlatMap, Latest, SameHomes;
    forall i | 0 <= i < |s.lh| ensures Latest(at, c, c.lh[i]) == Latest(at, s, s.lh[i]) {
      LatestSame(at, s, c, i);
    }
  }

  /** Every block that is not the log's own reads as before. */
  ghost predicate SameHomes(at: Place, c: Cache, c': Cache) {
    var f, g := FlatMap(c.bufs, c.disk), FlatMap(c'.bufs, c'.disk);
    g.Keys == f.Keys && forall k | k in f && (k.dev != at.dev || Home(at, k.blockno)) :: g[k] == f[k]
  }

  /** The first n log blocks read as the blocks listed for them. */
  ghost predicate CopiedUpTo(at: Place, c: Cache, n: nat) {
    var f := FlatMap(c.bufs, c.disk);
    forall i: nat | i < n && i < |c.lh| :: CopyOf(at, c, f, i)
  }

  ghost predicate CopyOf(at: Place, c: Cache, f: map<Key, Data>, i: nat)
    requires i < |c.lh|
  {
    Key(at.dev, c.lh[i]) in f && Key(at.dev, at.start + 1 + i) in f
      && f[Key(at.dev, at.start + 1 + i)] == f[Key(at.dev, c.lh[i])]
  }

  /** Block x is on disk as it reads. */
  ghost predicate AtHome(at: Place, c: Cache, x: nat) {
    var k := Key(at.dev, x);
    k in c.disk && k in FlatMap(c.bufs, c.disk) && c.disk[k] == FlatMap(c.bufs, c.disk)[k]
  }

  ghost predicate HomeUpTo(at: Place, c: Cache, n: nat) {
    forall i: nat | i < n && i < |c.lh| :: AtHome(at, c, c.lh[i])
  }

  lemma CopiedMore(at: Place, s: Cache, c: Cache, c': Cache, tail: nat)
    requires SameHomes(at, s, c) && CopiedUpTo(at, c, tail) && SameLog(c, c') && tail < |c.lh|
    requires Copied(c, c', Key(at.dev, c.lh[tail]), Key(at.dev, at.start + 1 + tail))
    requires Key(at.dev, at.start + 1 + tail) in c.disk && at.dev != 0 && !Home(at, at.start + 1 + tail)
    requires forall i | 0 <= i < |c.lh| :: Home(at, c.lh[i])
    ensures SameHomes(at, s, c') && CopiedUpTo(at, c', tail + 1)
  {
    hide FlatMap, Sound;
    InFlat(c, Key(at.dev, at.start + 1 + tail));
    var f, g := FlatMap(c.bufs, c.disk), FlatMap(c'.bufs, c'.disk);
    forall i: nat | i < tail + 1 && i < |c'.lh| ensures CopyOf(at, c', g, i) {
      if i < tail {
        assert CopyOf(at, c, f, i);
      }
    }
  }

  lemma CopyAt(at: Place, c: Cache, tail: nat)
    requires CopiedUpTo(at, c, |c.lh|) && tail < |c.lh|
    ensures CopyOf(at, c, FlatMap(c.bufs, c.disk), tail)
  {
    hide FlatMap, CopyOf;
  }

  lemma ListedOnDisk(at: Place, c: Cache, tail: nat)
    requires Sound(at, c) && c.installed <= tail < |c.lh|
    ensures Key(at.dev, c.lh[tail]) in c.disk && at.dev != 0 && forall i | 0 <= i < |c.lh| :: Home(at, c.lh[i])
  {
    assert c.slot[tail] in c.pinned;
  }

  lemma HeadBlockThere(at: Place, c: Cache)
    requires Sound(at, c)
    ensures at.dev != 0 && Key(at.dev, at.start) in c.disk && !Home(at, at.start)
  {
  }

  /** The buffer of the next block to install is the one that was pinned for it. */
  lemma SlotOf(at: Place, c: Cache, d: nat)
    requires Sound(at, c) && c.installed < |c.lh| && d < NBUF && c.bufs[d].key == Key(at.dev, c.lh[c.installed])
    ensures |c.slot| == |c.lh| && d == c.slot[c.installed]
  {
  }

  lemma HomeMore(at: Place, c: Cache, c': Cache)
    requires c.installed < |c.lh| && c'.lh == c.lh && c'.installed == c.installed + 1 && SameFlat(c, c')
    requires HomeUpTo(at, c, c.installed) && CopiedUpTo(at, c, |c.lh|)
    requires var k := Key(at.dev, c.lh[c.installed]);
               k in FlatMap(c'.bufs, c'.disk) && c'.disk == c.disk[k := FlatMap(c'.bufs, c'.disk)[k]]
    ensures HomeUpTo(at, c', c'.installed) && CopiedUpTo(at, c', |c'.lh|)
  {
    hide FlatMap;
    var f := FlatMap(c.bufs, c.disk);
    forall i: nat | i < |c'.lh| ensures CopyOf(at, c', f, i) {
      assert CopyOf(at, c, f, i);
    }
    forall i: nat | i < c'.installed && i < |c'.lh| ensures AtHome(at, c', c'.lh[i]) {
      if i < c.installed { assert AtHome(at, c, c.lh[i]); }
    }
  }

  lemma NonePinned(at: Place, c: Cache)
    requires Sound(at, c) && c.installed == |c.lh|
    ensures c.pinned == {}
  {
    assert forall b :: !Waits(c, b);
  }

  lemma NothingMoved(at: Place, c: Cache)
    ensures SameHomes(at, c, c)
  {
  }

  lemma HeadOnly(at: Place, s: Cache, c: Cache, c': Cache, head: Data)
    requires Sound(at, c) && SameHomes(at, s, c) && CopiedUpTo(at, c, |c.lh|) && SameLog(c, c')
    requires FlatMap(c'.bufs, c'.disk) == FlatMap(c.bufs, c.disk)[Key(at.dev, at.start) := head]
    ensures SameHomes(at, s, c') && CopiedUpTo(at, c', |c'.lh|)
  {
    hide FlatMap, Sound;
    HeadBlockThere(at, c);
    InFlat(c, Key(at.dev, at.start));
    var f, g := FlatMap(c.bufs, c.disk), FlatMap(c'.bufs, c'.disk);
    forall i: nat | i < |c'.lh| ensures CopyOf(at, c', g, i) {
      assert CopyOf(at, c, f, i);
      LogBlock(at, c, i);
    }
  }

  lemma HeadOnlyAgain(at: Place, s: Cache, c: Cache, c': Cache, head: Data)
    requires Sound(at, c) && SameHomes(at, s, c)
    requires FlatMap(c'.bufs, c'.disk) == FlatMap(c.bufs, c.disk)[Key(at.dev, at.start) := head]
    ensures SameHomes(at, s, c')
  {
    hide FlatMap, Sound;
    HeadBlockThere(at, c);
    InFlat(c, Key(at.dev, at.start));
  }

  lemma SameFlatHomes(at: Place, s: Cache, c: Cache, c': Cache)
    requires SameHomes(at, s, c) && SameFlat(c, c')
    ensures SameHomes(at, s, c')
  {
    hide FlatMap;
  }

  /** Once everything is installed the list can be emptied. */
  lemma Cleared(at: Place, c: Cache)
    requires Sound(at, c) && c.pinned == {}
    ensures var c' := c.(lh := [], slot := [], installed := 0); Sound(at, c') && MoreReady(c, c') && MoreReady(c', c)
  {
    ReadyGrows(c, c.(lh := [], slot := [], installed := 0));
    ReadyGrows(c.(lh := [], slot := [], installed := 0), c);
  }

  lemma HomesTransitive(at: Place, a: Cache, b: Cache, c: Cache)
    requires SameHomes(at, a, b) && SameHomes(at, b, c)
    ensures SameHomes(at, a, c)
  {
    hide FlatMap;
  }

  lemma HomesFrom(at: Place, s: Cache, s1: Cache, c: Cache)
    requires SameHomes(at, s1, c) && s1.bufs == s.bufs && s1.disk == s.disk
    ensures SameHomes(at, s, c)
  {
    hide FlatMap;
  }

  lemma ListFits(at: Place, c: Cache)
    requires Sound(at, c)
    ensures |c.lh| <= LOGSIZE && forall i | 0 <= i < |c.lh| :: Home(at, c.lh[i]) && c.lh[i] < UINT
  {
  }

  lemma StillHome(at: Place, s: Cache, c: Cache, c': Cache, i: nat, head: Data)
    requires Sound(at, s) && HomeUpTo(at, s, |s.lh|) && i < |s.lh| && c.bufs == s.bufs && c.disk == s.disk
    requires FlatMap(c'.bufs, c'.disk) == FlatMap(c.bufs, c.disk)[Key(at.dev, at.start) := head]
    requires c'.disk == c.disk[Key(at.dev, at.start) := head]
    ensures AtHome(at, c', s.lh[i])
  {
    hide FlatMap;
    LogBlock(at, s, i);
    assert AtHome(at, s, s.lh[i]);
  }

  /** Block `to` now reads as block `from` did, on disk as well; nobody holds a buffer for it. */
  ghost predicate Copied(c: Cache, c': Cache, from: Key, to: Key) {
    && from in FlatMap(c.bufs, c.disk) && c'.users == c.users && c'.modified == c.modified
    && FlatMap(c'.bufs, c'.disk) == FlatMap(c.bufs, c.disk)[to := FlatMap(c.bufs, c.disk)[from]]
    && c'.disk == c.disk[to := FlatMap(c.bufs, c.disk)[from]]
  }

  lemma InFlat(c: Cache, k: Key)
    requires k in c.disk && k.dev != 0
    ensures k in FlatMap(c.bufs, c.disk)
  {
  }

  /** A buffer of one of the log's own blocks is never pinned. */
  lemma LogUnpinned(at: Place, c: Cache, b: nat)
    requires Sound(at, c) && b < NBUF && c.bufs[b].key.dev == at.dev && !Home(at, c.bufs[b].key.blockno)
    ensures b !in c.pinned
  {
    assert b in c.pinned ==> Waits(c, b);
  }

  lemma EditPins(c: Cache, c': Cache, b: nat)
    requires b !in c.pinned && b < |c.bufs| && |c'.bufs| == |c.bufs| && c'.bufs == c.bufs[b := c'.bufs[b]]
    ensures PinsKept(c, c')
  {
  }

  lemma Lengths(at: Place, c: Cache)
    requires Sound(at, c)
    ensures |c.bufs| == NBUF && |c.users| == NBUF
  {
  }

  lemma LogBlock(at: Place, c: Cache, tail: nat)
    requires Sound(at, c) && tail < |c.lh|
    ensures at.dev != 0 && Key(at.dev, at.start + 1 + tail) in c.disk && c.lh[tail] != at.start + 1 + tail
    ensures !Home(at, at.start + 1 + tail) && Home(at, c.lh[tail])
  {
  }

  lemma NothingChanged(c: Cache)
    ensures SameFlat(c, c) && PinsKept(c, c)
  {
  }

  lemma PinsTransitive(a: Cache, b: Cache, c: Cache)
    requires PinsKept(a, b) && PinsKept(b, c) && b.pinned == a.pinned
    ensures PinsKept(a, c)
  {
  }

  /** A valid buffer holds the latest contents of its block. */
  lemma CachedFlat(at: Place, c: Cache, b: nat)
    requires Sound(at, c) && b < NBUF && c.bufs[b].valid
    ensures c.bufs[b].key in FlatMap(c.bufs, c.disk) && FlatMap(c.bufs, c.disk)[c.bufs[b].key] == c.bufs[b].data
  {
    FlatCached(c.bufs, c.disk, b);
  }

  /** Reading a block in makes its buffer hold what the block already read as. */
  lemma LoadFlat(bufs: seq<Buf>, disk: map<Key, Data>, b: nat)
    requires b < |bufs| && Unique(bufs) && !bufs[b].valid && bufs[b].key.dev != 0 && bufs[b].key in disk
    ensures var bufs' := bufs[b := bufs[b].(valid := true, data := disk[bufs[b].key])];
            && Unique(bufs')
            && (forall k: Key | k.dev != 0 && k in disk :: Flat(bufs', disk, k) == Flat(bufs, disk, k))
  {
    var bufs' := bufs[b := bufs[b].(valid := true, data := disk[bufs[b].key])];
    assert Unique(bufs');
    forall k: Key | k.dev != 0 && k in disk ensures Flat(bufs', disk, k) == Flat(bufs, disk, k) {
      if k == bufs[b].key {
        FlatCached(bufs', disk, b);
        assert forall i: nat :: !Holds(bufs, i, k);
      } else {
        FlatSame(bufs, disk, bufs', disk, k);
      }
    }
  }

  /** Writing a cached block to its home changes no block's contents. */
  lemma InstallFlat(bufs: seq<Buf>, disk: map<Key, Data>, b: nat)
    requires b < |bufs| && Unique(bufs) && bufs[b].valid && bufs[b].key in disk
    ensures var disk' := disk[bufs[b].key := bufs[b].data];
            forall k: Key | k.dev != 0 && k in disk :: Flat(bufs, disk', k) == Flat(bufs, disk, k)
  {
    var disk' := disk[bufs[b].key := bufs[b].data];
    forall k: Key | k.dev != 0 && k in disk ensures Flat(bufs, disk', k) == Flat(bufs, disk, k) {
      if k == bufs[b].key {
        FlatCached(bufs, disk, b);
        FlatCached(bufs, disk', b);
      }
    }
  }

  lemma ModifyFlat(bufs: seq<Buf>, disk: map<Key, Data>, b: nat, data: Data)
    requires b < |bufs| && Unique(bufs) && bufs[b].valid && bufs[b].key.dev != 0 && bufs[b].key in disk
    ensures var bufs' := bufs[b := bufs[b].(data := data)];
            && Unique(bufs')
            && (forall k: Key | k.dev != 0 && k in disk ::
                  Flat(bufs', disk, k) == if k == bufs[b].key then data else Flat(bufs, disk, k))
  {
    var bufs' := bufs[b := bufs[b].(data := data)];
    assert Unique(bufs');
    forall k: Key | k.dev != 0 && k in disk
      ensures Flat(bufs', disk, k) == if k == bufs[b].key then data else Flat(bufs, disk, k)
    {
      if k == bufs[b].key {
        FlatCached(bufs', disk, b);
      } else {
        FlatSame(bufs, disk, bufs', disk, k);
      }
    }
  }

  /** Changing only a reference count changes no block's contents. */
  lemma CountFlat(bufs: seq<Buf>, bufs': seq<Buf>, disk: map<Key, Data>, b: nat)
    requires b < |bufs| == |bufs'| && Unique(bufs) && bufs' == bufs[b := bufs[b].(refcnt := bufs'[b].refcnt)]
    ensures Unique(bufs')
    ensures forall k: Key | k.dev != 0 && k in disk :: Flat(bufs', disk, k) == Flat(bufs, disk, k)
  {
    assert Unique(bufs');
    forall k: Key | k.dev != 0 && k in disk ensures Flat(bufs', disk, k) == Flat(bufs, disk, k) {
      FlatSame(bufs, disk, bufs', disk, k);
    }
  }

  /** Recycling a buffer whose contents are also on disk changes no block's contents. */
  lemma RecycleFlat(bufs: seq<Buf>, disk: map<Key, Data>, b: nat, k: Key)
    requires b < |bufs| && Unique(bufs) && k.dev != 0 && (forall i | 0 <= i < |bufs| :: bufs[i].key != k)
    requires bufs[b].valid ==> bufs[b].key in disk && bufs[b].data == disk[bufs[b].key]
    ensures var bufs' := bufs[b := Buf(k, false, 1, bufs[b].data)];
            && Unique(bufs')
            && forall q: Key | q.dev != 0 && q in disk :: Flat(bufs', disk, q) == Flat(bufs, disk, q)
  {
    var bufs' := bufs[b := Buf(k, false, 1, bufs[b].data)];
    assert Unique(bufs');
    forall q: Key | q.dev != 0 && q in disk ensures Flat(bufs', disk, q) == Flat(bufs, disk, q) {
      if bufs[b].key == q && bufs[b].valid {
        FlatCached(bufs, disk, b);
        assert forall i: nat :: !Holds(bufs', i, q);
      } else {
        FlatSame(bufs, disk, bufs', disk, q);
      }
    }
  }
}
