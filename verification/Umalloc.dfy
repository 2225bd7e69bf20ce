/**
  The allocator of user/umalloc.c (The C Programming Language, 2nd ed., section 8.7).

  Addresses count headers of 16 bytes.  The free list is a ring of headers in memory that
  starts at the static header base, which lies below everything sbrk returns.  `ring`,
  `live` and `tile` are bookkeeping for the proof: the ring in order, the blocks in use with
  their sizes, and the block each cell of the arena belongs to.
 */
module Umalloc {
  import opened Prelude

  const BASE: nat := 1
  const UNIT: nat := 16

  datatype Header = Header(ptr: nat, size: nat)

  /** freep is 0 before the first call of malloc. */
  datatype Heap = Heap(mem: map<nat, Header>, freep: nat, ghost ring: seq<nat>, ghost live: map<nat, nat>,
                       ghost tile: map<nat, nat>)

  function Succ(ring: seq<nat>, i: nat): nat
    requires i < |ring|
  {
    if i + 1 < |ring| then ring[i + 1] else ring[0]
  }

  /** The header of ring[i] points to its successor. */
  ghost predicate Link(mem: map<nat, Header>, ring: seq<nat>, i: nat)
    requires i < |ring|
  {
    ring[i] in mem && mem[ring[i]].ptr == Succ(ring, i)
  }

  /** The ring is circular and in address order, with the one wrap at its end. */
  ghost predicate Circular(mem: map<nat, Header>, ring: seq<nat>) {
    && |ring| >= 1 && ring[0] == BASE
    && (forall i: nat, j: nat | i < j < |ring| :: ring[i] < ring[j])
    && (forall i: nat | i < |ring| :: Link(mem, ring, i))
  }

  /** A block owns exactly the cells it spans. */
  ghost predicate Block(mem: map<nat, Header>, tile: map<nat, nat>, a: nat) {
    && a > BASE && a in mem && mem[a].size > 0
    && forall u: nat | a <= u < a + mem[a].size :: u in tile && tile[u] == a
  }

  /** Free and live blocks tile the arena. */
  ghost predicate Tiled(mem: map<nat, Header>, tile: map<nat, nat>, live: map<nat, nat>, free: set<nat>) {
    && (forall a | a in free :: Block(mem, tile, a) && a !in live)
    && (forall a | a in live :: Block(mem, tile, a) && mem[a].size == live[a])
    && (forall u | u in tile ::
          tile[u] in mem && tile[u] <= u < tile[u] + mem[tile[u]].size && (tile[u] in live || tile[u] in free))
  }

  ghost function FreeOf(ring: seq<nat>): set<nat> {
    set a | a in ring && a != BASE
  }

  ghost predicate Inv(h: Heap) {
    && Circular(h.mem, h.ring) && Tiled(h.mem, h.tile, h.live, FreeOf(h.ring)) && h.freep in h.ring
    && BASE in h.mem && h.mem[BASE].size == 0
  }

  /** There is room between ring[j] and its successor. */
  ghost predicate Gap(mem: map<nat, Header>, ring: seq<nat>, j: nat)
    requires j + 1 < |ring|
  {
    ring[j] in mem && ring[j] + mem[ring[j]].size < ring[j + 1]
  }

  /** No two neighbours on the ring touch, except perhaps at positions lo .. hi - 1. */
  ghost predicate CoalescedBut(h: Heap, lo: nat, hi: nat) {
    forall j: nat | 0 < j && j + 1 < |h.ring| && !(lo <= j < hi) :: Gap(h.mem, h.ring, j)
  }

  ghost predicate Coalesced(h: Heap) {
    CoalescedBut(h, 0, 0)
  }

  /** Two blocks that both own their cells do not overlap. */
  lemma Disjoint(mem: map<nat, Header>, tile: map<nat, nat>, a: nat, b: nat)
    requires Block(mem, tile, a) && Block(mem, tile, b) && a < b
    ensures a + mem[a].size <= b
  {
    assert b in tile && tile[b] == b;
  }

  /** Live blocks and free blocks never overlap, and together they are the arena. */
  lemma NoOverlap(h: Heap, a: nat, b: nat)
    requires Inv(h) && (a in h.live || a in FreeOf(h.ring)) && (b in h.live || b in FreeOf(h.ring)) && a < b
    ensures a in h.mem && a + h.mem[a].size <= b
    ensures forall u | u in h.tile :: h.tile[u] in h.live || h.tile[u] in FreeOf(h.ring)
  {
    Disjoint(h.mem, h.tile, a, b);
  }

  // ---------------------------------------------------------------------
  // free: linking a block in, and joining neighbours

  /** The position after which bp belongs. */
  ghost predicate Fits(ring: seq<nat>, i: nat, bp: nat) {
    i < |ring| && ring[i] < bp && (i + 1 < |ring| ==> bp < ring[i + 1])
  }

  ghost function Insert(h: Heap, i: nat, bp: nat): Heap
    requires i < |h.ring| && bp in h.mem && h.ring[i] in h.mem
  {
    var mem := h.mem[bp := Header(Succ(h.ring, i), h.mem[bp].size)];
    Heap(mem[h.ring[i] := mem[h.ring[i]].(ptr := bp)], h.ring[i],
         h.ring[..i + 1] + [bp] + h.ring[i + 1..], h.live - {bp}, h.tile)
  }

  lemma InsertIndex(ring: seq<nat>, i: nat, bp: nat)
    requires Fits(ring, i, bp) && forall x: nat, y: nat | x < y < |ring| :: ring[x] < ring[y]
    ensures var r := ring[..i + 1] + [bp] + ring[i + 1..];
            && |r| == |ring| + 1 && r[i + 1] == bp
            && (forall x: nat, y: nat | x < y < |r| :: r[x] < r[y])
            && (forall x: nat | x <= i :: r[x] == ring[x]) && (forall x: nat | i + 1 < x < |r| :: r[x] == ring[x - 1])
  {
  }

  lemma InsertMember(ring: seq<nat>, i: nat, bp: nat, a: nat)
    requires i < |ring|
    ensures a in ring[..i + 1] + [bp] + ring[i + 1..] <==> a in ring || a == bp
  {
    assert ring == ring[..i + 1] + ring[i + 1..];
  }

  lemma InsertCircular(h: Heap, i: nat, bp: nat)
    requires Circular(h.mem, h.ring) && Fits(h.ring, i, bp) && bp in h.mem && h.ring[i] in h.mem
    ensures Circular(Insert(h, i, bp).mem, Insert(h, i, bp).ring)
  {
    InsertIndex(h.ring, i, bp);
    var h' := Insert(h, i, bp);
    assert Link(h.mem, h.ring, i);
    forall x: nat | x < |h'.ring| ensures Link(h'.mem, h'.ring, x) {
      if x < i {
        assert Link(h.mem, h.ring, x) && h'.ring[x] == h.ring[x] && h.ring[x] < h.ring[i];
      } else if x > i + 1 {
        assert Link(h.mem, h.ring, x - 1) && h'.ring[x] == h.ring[x - 1] && h.ring[i] < h.ring[x - 1];
      }
    }
  }

  /** Freeing a block changes no size. */
  lemma FreeTiled(mem: map<nat, Header>, mem': map<nat, Header>, tile: map<nat, nat>, live: map<nat, nat>,
                  free: set<nat>, bp: nat)
    requires Tiled(mem, tile, live, free) && bp in live
    requires forall a | a in mem :: a in mem' && mem'[a].size == mem[a].size
    ensures Tiled(mem', tile, live - {bp}, free + {bp})
  {
    forall a | Block(mem, tile, a) ensures Block(mem', tile, a) {
    }
  }

  lemma InsertFree(ring: seq<nat>, i: nat, bp: nat)
    requires |ring| >= 1 && Fits(ring, i, bp) && bp > BASE
    requires forall x: nat, y: nat | x < y < |ring| :: ring[x] < ring[y]
    ensures var r := ring[..i + 1] + [bp] + ring[i + 1..]; FreeOf(r) == FreeOf(ring) + {bp} && ring[i] in r
  {
    var r := ring[..i + 1] + [bp] + ring[i + 1..];
    forall a: nat ensures a in r <==> a in ring || a == bp {
      InsertMember(ring, i, bp, a);
    }
    assert FreeOf(r) == FreeOf(ring) + {bp};
  }

  lemma InsertKeeps(h: Heap, i: nat, bp: nat)
    requires Inv(h) && Fits(h.ring, i, bp) && bp in h.live
    ensures bp in h.mem && h.ring[i] in h.mem && Inv(Insert(h, i, bp))
  {
    hide Tiled, FreeOf, Circular;
    LiveBlock(h, bp);
    Linked(h.mem, h.ring, i);
    InsertCircular(h, i, bp);
    InsertFree(h.ring, i, bp);
    FreeTiled(h.mem, Insert(h, i, bp).mem, h.tile, h.live, FreeOf(h.ring), bp);
  }

  lemma Linked(mem: map<nat, Header>, ring: seq<nat>, i: nat)
    requires Circular(mem, ring) && i < |ring|
    ensures ring[i] in mem && mem[ring[i]].ptr == Succ(ring, i) && |ring| >= 1 && ring[0] == BASE
    ensures forall x: nat, y: nat | x < y < |ring| :: ring[x] < ring[y]
    ensures i > 0 ==> ring[i] > BASE && ring[i] in FreeOf(ring)
  {
    assert Link(mem, ring, i);
  }

  lemma LiveBlock(h: Heap, bp: nat)
    requires Tiled(h.mem, h.tile, h.live, FreeOf(h.ring)) && bp in h.live
    ensures Block(h.mem, h.tile, bp) && h.mem[bp].size == h.live[bp]
  {
  }

  /** ring[j] swallows its neighbour ring[j + 1]. */
  ghost function Merge(h: Heap, j: nat): Heap
    requires j + 1 < |h.ring| && h.ring[j] in h.mem && h.ring[j + 1] in h.mem
  {
    var a, c := h.ring[j], h.ring[j + 1];
    Heap(h.mem[a := Header(h.mem[c].ptr, h.mem[a].size + h.mem[c].size)], h.freep,
         h.ring[..j + 1] + h.ring[j + 2..], h.live, Joined(h.tile, a, c))
  }

  lemma MergeIndex(ring: seq<nat>, j: nat)
    requires j + 1 < |ring| && forall x: nat, y: nat | x < y < |ring| :: ring[x] < ring[y]
    ensures var r := ring[..j + 1] + ring[j + 2..];
            && |r| == |ring| - 1
            && (forall x: nat, y: nat | x < y < |r| :: r[x] < r[y])
            && (forall x: nat | x <= j :: r[x] == ring[x]) && (forall x: nat | j < x < |r| :: r[x] == ring[x + 1])
  {
  }

  lemma MergeMember(ring: seq<nat>, j: nat, a: nat)
    requires j + 1 < |ring| && forall x: nat, y: nat | x < y < |ring| :: ring[x] < ring[y]
    ensures a in ring[..j + 1] + ring[j + 2..] <==> a in ring && a != ring[j + 1]
  {
    assert ring == ring[..j + 1] + [ring[j + 1]] + ring[j + 2..];
  }

  lemma MergeCircular(h: Heap, j: nat)
    requires Circular(h.mem, h.ring) && j + 1 < |h.ring| && h.ring[j] in h.mem && h.ring[j + 1] in h.mem
    ensures Circular(Merge(h, j).mem, Merge(h, j).ring)
  {
    MergeIndex(h.ring, j);
    var h' := Merge(h, j);
    assert Link(h.mem, h.ring, j) && Link(h.mem, h.ring, j + 1);
    forall x: nat | x < |h'.ring| ensures Link(h'.mem, h'.ring, x) {
      if x < j {
        assert Link(h.mem, h.ring, x) && h'.ring[x] == h.ring[x] && h.ring[x] < h.ring[j];
      } else if x > j {
        assert Link(h.mem, h.ring, x + 1) && h'.ring[x] == h.ring[x + 1] && h.ring[j] < h.ring[x + 1];
      }
    }
  }

  ghost function Joined(tile: map<nat, nat>, a: nat, c: nat): map<nat, nat> {
    map u | u in tile :: if tile[u] == c then a else tile[u]
  }

  /** Blocks other than the two that join keep their cells, and the joined one owns both ranges. */
  lemma JoinBlock(mem: map<nat, Header>, tile: map<nat, nat>, a: nat, c: nat, ptr: nat, b: nat)
    requires Block(mem, tile, a) && Block(mem, tile, c) && a != c && a + mem[a].size == c && b != c
    requires Block(mem, tile, b)
    ensures Block(mem[a := Header(ptr, mem[a].size + mem[c].size)], Joined(tile, a, c), b)
  {
    var mem' := mem[a := Header(ptr, mem[a].size + mem[c].size)];
    var tile' := Joined(tile, a, c);
    forall u: nat | b <= u < b + mem'[b].size ensures u in tile' && tile'[u] == b {
      if b == a {
        assert u in tile && (if u < c then tile[u] == a else tile[u] == c);
      } else {
        assert u in tile && tile[u] == b;
      }
    }
  }

  lemma JoinTiled(mem: map<nat, Header>, tile: map<nat, nat>, live: map<nat, nat>, free: set<nat>, a: nat, c: nat,
                  ptr: nat)
    requires Tiled(mem, tile, live, free) && a in free && c in free && a != c && a in mem && c in mem
    requires a + mem[a].size == c
    ensures Tiled(mem[a := Header(ptr, mem[a].size + mem[c].size)], Joined(tile, a, c), live, free - {c})
  {
    hide Block;
    var mem' := mem[a := Header(ptr, mem[a].size + mem[c].size)];
    var tile' := Joined(tile, a, c);
    forall b | b in free - {c} || b in live ensures Block(mem', tile', b) {
      JoinBlock(mem, tile, a, c, ptr, b);
    }
    forall u | u in tile' ensures tile'[u] in mem' && tile'[u] <= u < tile'[u] + mem'[tile'[u]].size
      && (tile'[u] in live || tile'[u] in free - {c}) {
      assert u in tile;
    }
  }

  lemma MergeFree(ring: seq<nat>, j: nat, f: nat)
    requires j + 1 < |ring| && (forall x: nat, y: nat | x < y < |ring| :: ring[x] < ring[y]) && f in ring
    requires f != ring[j + 1]
    ensures var r := ring[..j + 1] + ring[j + 2..]; FreeOf(r) == FreeOf(ring) - {ring[j + 1]} && f in r
  {
    forall a: nat ensures a in ring[..j + 1] + ring[j + 2..] <==> a in ring && a != ring[j + 1] {
      MergeMember(ring, j, a);
    }
    assert FreeOf(ring[..j + 1] + ring[j + 2..]) == FreeOf(ring) - {ring[j + 1]};
  }

  lemma MergeKeeps(h: Heap, j: nat)
    requires Inv(h) && 0 < j && j + 1 < |h.ring| && h.ring[j] in h.mem && h.freep != h.ring[j + 1]
    requires h.ring[j] + h.mem[h.ring[j]].size == h.ring[j + 1]
    ensures h.ring[j + 1] in h.mem && Inv(Merge(h, j)) && Merge(h, j).tile.Keys == h.tile.Keys
  {
    hide Tiled, FreeOf, Circular;
    Linked(h.mem, h.ring, j);
    Linked(h.mem, h.ring, j + 1);
    MergeCircular(h, j);
    MergeFree(h.ring, j, h.freep);
    JoinTiled(h.mem, h.tile, h.live, FreeOf(h.ring), h.ring[j], h.ring[j + 1], h.mem[h.ring[j + 1]].ptr);
  }

  lemma InsertGaps(h: Heap, i: nat, bp: nat)
    requires Inv(h) && Fits(h.ring, i, bp) && bp in h.live && Coalesced(h) && bp in h.mem && h.ring[i] in h.mem
    ensures CoalescedBut(Insert(h, i, bp), i, i + 2)
  {
    hide Tiled, FreeOf;
    InsertIndex(h.ring, i, bp);
    var h' := Insert(h, i, bp);
    forall j: nat | 0 < j && j + 1 < |h'.ring| && !(i <= j < i + 2) ensures Gap(h'.mem, h'.ring, j) {
      if j < i {
        assert Gap(h.mem, h.ring, j);
      } else {
        assert Gap(h.mem, h.ring, j - 1) && h'.ring[j] == h.ring[j - 1];
      }
    }
  }

  /** Joining at j closes the gap question there. */
  lemma MergeGaps(h: Heap, j: nat, lo: nat)
    requires Inv(h) && 0 < j && j + 1 < |h.ring| && h.ring[j] in h.mem && h.ring[j + 1] in h.mem && lo <= j
    requires h.ring[j] + h.mem[h.ring[j]].size == h.ring[j + 1] && CoalescedBut(h, lo, j + 1)
    ensures CoalescedBut(Merge(h, j), lo, j)
  {
    hide Tiled, FreeOf;
    MergeIndex(h.ring, j);
    var h' := Merge(h, j);
    forall k: nat | 0 < k && k + 1 < |h'.ring| && !(lo <= k < j) ensures Gap(h'.mem, h'.ring, k) {
      if k < j {
        assert Gap(h.mem, h.ring, k);
      } else {
        assert Gap(h.mem, h.ring, k + 1) && h'.ring[k + 1] == h.ring[k + 2];
      }
    }
  }

  /** Where blocks do not touch there is a gap. */
  lemma ApartGaps(h: Heap, j: nat, lo: nat)
    requires Inv(h) && j + 1 <= |h.ring| && lo <= j && CoalescedBut(h, lo, j + 1)
    requires 0 < j && j + 1 < |h.ring| ==> h.ring[j] in h.mem && h.ring[j] + h.mem[h.ring[j]].size != h.ring[j + 1]
    ensures CoalescedBut(h, lo, j)
  {
    if 0 < j && j + 1 < |h.ring| {
      assert h.ring[j] in FreeOf(h.ring) && h.ring[j + 1] in FreeOf(h.ring);
      Disjoint(h.mem, h.tile, h.ring[j], h.ring[j + 1]);
    }
  }

  /** Whether block j of the ring ends where the next one starts. */
  ghost predicate Touches(h: Heap, j: nat) {
    0 < j && j + 1 < |h.ring| && h.ring[j] in h.mem && h.ring[j + 1] in h.mem
      && h.ring[j] + h.mem[h.ring[j]].size == h.ring[j + 1]
  }

  ghost function Join(h: Heap, j: nat): Heap {
    if Touches(h, j) then Merge(h, j) else h
  }

  /** free: link in, join with the block above, join with the block below. */
  ghost function Freed(h: Heap, i: nat, bp: nat): Heap
    requires i < |h.ring| && bp in h.mem && h.ring[i] in h.mem
  {
    Join(Join(Insert(h, i, bp), i + 1), i)
  }

  /** The block is free, nothing else changes hands, and the ring is coalesced again. */
  lemma FreedKeeps(h: Heap, i: nat, bp: nat)
    requires Inv(h) && Coalesced(h) && Fits(h.ring, i, bp) && bp in h.live
    ensures bp in h.mem && h.ring[i] in h.mem
    ensures var h' := Freed(h, i, bp);
              && Inv(h') && Coalesced(h') && h'.live == h.live - {bp} && h'.tile.Keys == h.tile.Keys
              && h'.freep == h.ring[i]
  {
    hide Inv, Insert, CoalescedBut;
    InsertKeeps(h, i, bp);
    InsertGaps(h, i, bp);
    InsertShape(h, i, bp);
    var h1 := Insert(h, i, bp);
    JoinKeeps(h1, i + 1, i);
    var h2 := Join(h1, i + 1);
    JoinKeeps(h2, i, i);
    EmptyRange(Join(h2, i), i);
  }

  lemma EmptyRange(h: Heap, i: nat)
    requires CoalescedBut(h, i, i)
    ensures Coalesced(h)
  {
  }

  lemma InsertShape(h: Heap, i: nat, bp: nat)
    requires Inv(h) && Fits(h.ring, i, bp) && bp in h.mem && h.ring[i] in h.mem
    ensures var h1 := Insert(h, i, bp);
            && |h1.ring| == |h.ring| + 1 && h1.ring[i] == h.ring[i] && h1.ring[i + 1] == bp && h1.freep == h.ring[i]
            && h1.tile == h.tile && h1.live == h.live - {bp} && h.ring[i] != bp
  {
  }

  lemma JoinKeeps(h: Heap, j: nat, i: nat)
    requires Inv(h) && i <= j <= i + 1 && j < |h.ring| && CoalescedBut(h, i, j + 1) && h.freep == h.ring[i]
    ensures var h' := Join(h, j);
            && Inv(h') && CoalescedBut(h', i, j) && h'.live == h.live && h'.tile.Keys == h.tile.Keys
              && h'.freep == h.freep
            && i < |h'.ring| && h'.ring[i] == h.ring[i]
  {
    hide CoalescedBut, Tiled, FreeOf;
    if 0 < j && j + 1 < |h.ring| {
      Linked(h.mem, h.ring, j);
      Linked(h.mem, h.ring, j + 1);
    }
    if Touches(h, j) {
      MergeIndex(h.ring, j);
      assert h.freep != h.ring[j + 1];
      MergeKeeps(h, j);
      MergeGaps(h, j, i);
    } else {
      ApartGaps(h, j, i);
    }
  }

  // ---------------------------------------------------------------------
  // malloc: taking a block, whole or from its tail, and growing the arena

  /** The whole block after ring[i] leaves the ring. */
  ghost function Unlinked(h: Heap, i: nat): Heap
    requires i + 1 < |h.ring| && h.ring[i] in h.mem && h.ring[i + 1] in h.mem
  {
    var p, a := h.ring[i], h.ring[i + 1];
    Heap(h.mem[p := h.mem[p].(ptr := h.mem[a].ptr)], p, h.ring[..i + 1] + h.ring[i + 2..], h.live[a := h.mem[a].size],
      h.tile)
  }

  /** The last n cells of block j become a block of their own. */
  ghost function Split(h: Heap, j: nat, n: nat): Heap
    requires 0 < j < |h.ring| && h.ring[j] in h.mem && n < h.mem[h.ring[j]].size
  {
    var a := h.ring[j];
    var q := a + h.mem[a].size - n;
    var mem := h.mem[a := h.mem[a].(size := h.mem[a].size - n)];
    Heap(mem[q := Header(PtrAt(h.mem, q), n)], h.ring[j - 1], h.ring, h.live[q := n], Carved(h.tile, a, q))
  }

  /** What the first word of a cell happens to hold. */
  function PtrAt(mem: map<nat, Header>, q: nat): nat {
    if q in mem then mem[q].ptr else 0
  }

  ghost function Carved(tile: map<nat, nat>, a: nat, q: nat): map<nat, nat> {
    map u | u in tile :: if tile[u] == a && u >= q then q else tile[u]
  }

  /** sbrk's new region [b, b + nu) as one live block. */
  ghost function Grown(h: Heap, b: nat, nu: nat): Heap {
    h.(mem := h.mem[b := Header(PtrAt(h.mem, b), nu)], live := h.live[b := nu], tile := Extended(h.tile, b, nu))
  }

  ghost function Extended(tile: map<nat, nat>, b: nat, nu: nat): map<nat, nat> {
    map u | u in tile.Keys + Cells(b, nu) :: if b <= u < b + nu then b else tile[u]
  }

  ghost function Cells(b: nat, nu: nat): (c: set<nat>)
    ensures forall u: nat :: u in c <==> b <= u < b + nu
  {
    if nu == 0 then {} else Cells(b, nu - 1) + {b + nu - 1}
  }

  lemma UnlinkTiled(mem: map<nat, Header>, mem': map<nat, Header>, tile: map<nat, nat>, live: map<nat, nat>,
                    free: set<nat>, a: nat)
    requires Tiled(mem, tile, live, free) && a in free
    requires forall b | b in mem :: b in mem' && mem'[b].size == mem[b].size
    ensures a in mem && Tiled(mem', tile, live[a := mem[a].size], free - {a})
  {
    forall b | Block(mem, tile, b) ensures Block(mem', tile, b) {
    }
  }

  lemma UnlinkRing(h: Heap, i: nat)
    requires Circular(h.mem, h.ring) && Coalesced(h) && i + 1 < |h.ring| && h.ring[i] in h.mem && h.ring[i + 1] in h.mem
    ensures var h' := Unlinked(h, i); Circular(h'.mem, h'.ring) && Coalesced(h')
  {
    var h' := Unlinked(h, i);
    MergeIndex(h.ring, i);
    assert Link(h.mem, h.ring, i + 1);
    forall x: nat | x < |h'.ring| ensures Link(h'.mem, h'.ring, x) {
      if x < i {
        assert Link(h.mem, h.ring, x) && h'.ring[x] == h.ring[x] && h.ring[x] < h.ring[i];
      } else if x > i {
        assert Link(h.mem, h.ring, x + 1) && h'.ring[x] == h.ring[x + 1] && h.ring[i] < h.ring[x + 1];
      }
    }
    forall x: nat | 0 < x && x + 1 < |h'.ring| ensures Gap(h'.mem, h'.ring, x) {
      if x <= i {
        assert Gap(h.mem, h.ring, x) && h.ring[x + 1] <= h'.ring[x + 1];
      } else {
        assert Gap(h.mem, h.ring, x + 1) && h'.ring[x + 1] == h.ring[x + 2];
      }
    }
  }

  lemma UnlinkKeeps(h: Heap, i: nat)
    requires Inv(h) && Coalesced(h) && i + 1 < |h.ring|
    ensures h.ring[i] in h.mem && h.ring[i + 1] in h.mem && h.ring[i + 1] !in h.live
    ensures var h' := Unlinked(h, i); Inv(h') && Coalesced(h')
  {
    hide Tiled, FreeOf, Circular, CoalescedBut;
    Linked(h.mem, h.ring, i);
    Linked(h.mem, h.ring, i + 1);
    UnlinkRing(h, i);
    MergeFree(h.ring, i, h.ring[i]);
    NotLive(h, h.ring[i + 1]);
    UnlinkTiled(h.mem, Unlinked(h, i).mem, h.tile, h.live, FreeOf(h.ring), h.ring[i + 1]);
  }

  lemma NotLive(h: Heap, a: nat)
    requires Inv(h) && a in FreeOf(h.ring)
    ensures a !in h.live && Block(h.mem, h.tile, a)
  {
  }

  lemma SplitBlock(mem: map<nat, Header>, tile: map<nat, nat>, a: nat, q: nat, n: nat, b: nat)
    requires Block(mem, tile, a) && a < q && q + n == a + mem[a].size && n > 0 && (b == q || Block(mem, tile, b))
    ensures Block(mem[a := mem[a].(size := mem[a].size - n)][q := Header(PtrAt(mem, q), n)], Carved(tile, a, q), b)
  {
    assert q in tile && tile[q] == a;
    forall u: nat | q <= u < q + n ensures u in tile && tile[u] == a {
    }
  }

  lemma SplitTiled(mem: map<nat, Header>, tile: map<nat, nat>, live: map<nat, nat>, free: set<nat>, a: nat, q: nat,
                   n: nat)
    requires Tiled(mem, tile, live, free) && a in free && a in mem && a < q && q + n == a + mem[a].size && n > 0
    ensures q !in live && q !in free
    ensures Tiled(mem[a := mem[a].(size := mem[a].size - n)][q := Header(PtrAt(mem, q), n)], Carved(tile, a, q),
              live[q := n], free)
  {
    hide Block;
    var mem' := mem[a := mem[a].(size := mem[a].size - n)][q := Header(PtrAt(mem, q), n)];
    var tile' := Carved(tile, a, q);
    Middle(mem, tile, a, q);
    Inside(mem, tile, live, free, q, a);
    forall b | b in free || b in live || b == q ensures Block(mem', tile', b) {
      SplitBlock(mem, tile, a, q, n, b);
    }
    forall u | u in tile' ensures tile'[u] in mem' && tile'[u] <= u < tile'[u] + mem'[tile'[u]].size
      && (tile'[u] in live[q := n] || tile'[u] in free) {
      assert u in tile;
    }
  }

  lemma Middle(mem: map<nat, Header>, tile: map<nat, nat>, a: nat, q: nat)
    requires Block(mem, tile, a) && a <= q < a + mem[a].size
    ensures q in tile && tile[q] == a
  {
  }

  /** A cell in the middle of a block is not the start of another. */
  lemma Inside(mem: map<nat, Header>, tile: map<nat, nat>, live: map<nat, nat>, free: set<nat>, q: nat, a: nat)
    requires Tiled(mem, tile, live, free) && q in tile && tile[q] == a && a != q
    ensures q !in live && q !in free
  {
    assert q in live || q in free ==> Block(mem, tile, q);
  }

  lemma SplitKeeps(h: Heap, j: nat, n: nat)
    requires Inv(h) && Coalesced(h) && 0 < j < |h.ring| && h.ring[j] in h.mem && 0 < n < h.mem[h.ring[j]].size
    ensures var h' := Split(h, j, n); var q := h.ring[j] + h.mem[h.ring[j]].size - n;
            Inv(h') && Coalesced(h') && q !in h.live && h'.tile.Keys == h.tile.Keys
  {
    hide Tiled, FreeOf;
    Linked(h.mem, h.ring, j);
    var h' := Split(h, j, n);
    var a := h.ring[j];
    var q := a + h.mem[a].size - n;
    SplitTiled(h.mem, h.tile, h.live, FreeOf(h.ring), a, q, n);
    assert q !in h.ring by { NotOnRing(h.ring, q); }
    forall x: nat | x < |h.ring| ensures Link(h'.mem, h'.ring, x) {
      assert Link(h.mem, h.ring, x) && h.ring[x] != q;
    }
    forall x: nat | 0 < x && x + 1 < |h.ring| ensures Gap(h'.mem, h'.ring, x) {
      assert Gap(h.mem, h.ring, x) && h.ring[x] != q;
    }
  }

  lemma NotOnRing(ring: seq<nat>, q: nat)
    requires q !in FreeOf(ring) && q != BASE
    ensures q !in ring
  {
  }

  /** The region lies above everything there is. */
  ghost predicate Above(h: Heap, b: nat) {
    b > BASE && forall u | u in h.tile :: u < b
  }

  lemma OffRing(ring: seq<nat>, b: nat)
    requires b !in ring
    ensures b !in FreeOf(ring)
  {
  }

  lemma GrowBlock(mem: map<nat, Header>, tile: map<nat, nat>, b: nat, nu: nat, a: nat)
    requires (forall u | u in tile :: u < b) && nu > 0 && b > BASE && (a == b || Block(mem, tile, a))
    ensures Block(mem[b := Header(PtrAt(mem, b), nu)], Extended(tile, b, nu), a)
  {
    hide Cells;
    var tile' := Extended(tile, b, nu);
    if a != b {
      assert a in tile;
      forall u: nat | a <= u < a + mem[a].size ensures u in tile' && tile'[u] == a {
        assert u in tile && tile[u] == a;
      }
    }
  }

  lemma GrowTiled(h: Heap, b: nat, nu: nat)
    requires Tiled(h.mem, h.tile, h.live, FreeOf(h.ring)) && Above(h, b) && nu > 0 && b !in h.live
    requires b !in FreeOf(h.ring)
    ensures var h' := Grown(h, b, nu); Tiled(h'.mem, h'.tile, h'.live, FreeOf(h.ring))
  {
    hide FreeOf, Cells, Block;
    var h' := Grown(h, b, nu);
    forall a | a in FreeOf(h.ring) || a in h.live || a == b ensures Block(h'.mem, h'.tile, a) {
      GrowBlock(h.mem, h.tile, b, nu, a);
    }
    forall u | u in h'.tile
      ensures h'.tile[u] in h'.mem && h'.tile[u] <= u < h'.tile[u] + h'.mem[h'.tile[u]].size
      ensures h'.tile[u] in h'.live || h'.tile[u] in FreeOf(h.ring)
    {
      assert u in h.tile ==> u < b;
    }
  }

  lemma GrowKeeps(h: Heap, b: nat, nu: nat)
    requires Inv(h) && Coalesced(h) && Above(h, b) && nu > 0
    ensures var h' := Grown(h, b, nu); Inv(h') && Coalesced(h') && b !in h.live
  {
    hide Tiled, FreeOf, Above;
    var h' := Grown(h, b, nu);
    AboveAll(h, b);
    OffRing(h.ring, b);
    GrowTiled(h, b, nu);
    forall x: nat | x < |h.ring| ensures Link(h'.mem, h'.ring, x) {
      assert Link(h.mem, h.ring, x) && h.ring[x] != b;
    }
    forall x: nat | 0 < x && x + 1 < |h.ring| ensures Gap(h'.mem, h'.ring, x) {
      assert Gap(h.mem, h.ring, x) && h.ring[x] != b;
    }
  }

  lemma AboveAll(h: Heap, b: nat)
    requires Inv(h) && Above(h, b)
    ensures b !in h.live && b !in h.ring
  {
    assert b in h.live || b in FreeOf(h.ring) ==> Block(h.mem, h.tile, b) && b in h.tile;
    NotOnRing(h.ring, b);
  }

  // ---------------------------------------------------------------------
  // Walking round the ring

  /** How many steps from position k round to position t. */
  function Dist(n: nat, k: nat, t: nat): (d: nat)
    requires k < n && t < n
    ensures d < n && (d == 0 <==> k == t)
  {
    if t >= k then t - k else t + n - k
  }

  function Step(n: nat, k: nat): (k': nat)
    requires k < n
    ensures k' < n
  {
    if k + 1 < n then k + 1 else 0
  }

  lemma StepDist(n: nat, k: nat, t: nat)
    requires k < n && t < n
    ensures k != t ==> Dist(n, Step(n, k), t) == Dist(n, k, t) - 1
    ensures Dist(n, Step(n, k), k) == n - 1
  {
  }

  /** The place of bp on the ring exists. */
  lemma {:induction false} PlaceOf(ring: seq<nat>, bp: nat, n: nat) returns (t: nat)
    requires 0 < n <= |ring| && ring[0] < bp && bp !in ring && (n < |ring| ==> bp < ring[n])
    ensures Fits(ring, t, bp)
    decreases n
  {
    if ring[n - 1] < bp {
      t := n - 1;
    } else {
      assert ring[n - 1] in ring;
      t := PlaceOf(ring, bp, n - 1);
    }
  }

  /** Some free block has at least n cells. */
  ghost predicate HasFit(h: Heap, n: nat) {
    exists j: nat :: j < |h.ring| && FitsAt(h, j, n)
  }

  ghost predicate FitsAt(h: Heap, j: nat, n: nat)
    requires j < |h.ring|
  {
    h.ring[j] in h.mem && h.mem[h.ring[j]].size >= n
  }

  lemma MergeFits(h: Heap, j: nat, x: nat, n: nat)
    requires Touches(h, j) && x < |h.ring| && FitsAt(h, x, n)
    requires forall y: nat, z: nat | y < z < |h.ring| :: h.ring[y] < h.ring[z]
    ensures HasFit(Merge(h, j), n)
  {
    MergeIndex(h.ring, j);
    var h' := Merge(h, j);
    if x == j || x == j + 1 {
      assert h'.ring[j] == h.ring[j];
      assert FitsAt(h', j, n);
    } else if x < j {
      assert h'.ring[x] == h.ring[x] && h.ring[x] != h.ring[j];
      assert FitsAt(h', x, n);
    } else {
      assert h'.ring[x - 1] == h.ring[x] && h.ring[x] != h.ring[j];
      assert FitsAt(h', x - 1, n);
    }
  }

  lemma JoinFits(h: Heap, j: nat, n: nat)
    requires Inv(h) && HasFit(h, n)
    ensures HasFit(Join(h, j), n)
  {
    hide Tiled, FreeOf, Merge, FitsAt;
    if Touches(h, j) {
      var x: nat :| x < |h.ring| && FitsAt(h, x, n);
      MergeFits(h, j, x, n);
    }
  }

  lemma FreedFits(h: Heap, i: nat, bp: nat)
    requires Inv(h) && Coalesced(h) && Fits(h.ring, i, bp) && bp in h.live
    ensures bp in h.mem && h.ring[i] in h.mem && HasFit(Freed(h, i, bp), h.live[bp])
  {
    hide Inv, Insert, CoalescedBut, Join;
    InsertKeeps(h, i, bp);
    InsertGaps(h, i, bp);
    InsertShape(h, i, bp);
    InsertFits(h, i, bp);
    var h1 := Insert(h, i, bp);
    JoinKeeps(h1, i + 1, i);
    JoinFits(h1, i + 1, h.live[bp]);
    JoinFits(Join(h1, i + 1), i, h.live[bp]);
  }

  lemma InsertFits(h: Heap, i: nat, bp: nat)
    requires Inv(h) && Fits(h.ring, i, bp) && bp in h.live && bp in h.mem && h.ring[i] in h.mem
    ensures HasFit(Insert(h, i, bp), h.live[bp])
  {
    LiveBlock(h, bp);
    InsertIndex(h.ring, i, bp);
    assert FitsAt(Insert(h, i, bp), i + 1, h.live[bp]);
  }

  /** The code's two tests say when the neighbours touch. */
  lemma TouchAbove(h: Heap, i: nat, bp: nat)
    requires Inv(h) && Fits(h.ring, i, bp) && bp in h.mem && h.ring[i] in h.mem && bp > BASE && h.mem[bp].size > 0
    ensures var h1, nx := Insert(h, i, bp), Succ(h.ring, i);
            && h.mem[h.ring[i]].ptr == nx && nx in h.mem && nx in h1.mem
            && (Touches(h1, i + 1) <==> bp + h.mem[bp].size == nx)
            && (Touches(h1, i + 1) ==> h1.ring[i + 2] == nx && nx != h.ring[i] && nx != bp)
            && |h1.ring| >= i + 2 && h1.ring[i] == h.ring[i] && h1.ring[i + 1] == bp
  {
    hide Tiled, FreeOf, Circular;
    Linked(h.mem, h.ring, i);
    InsertIndex(h.ring, i, bp);
    if i + 1 < |h.ring| {
      Linked(h.mem, h.ring, i + 1);
      assert Insert(h, i, bp).ring[i + 2] == h.ring[i + 1];
    } else {
      Linked(h.mem, h.ring, 0);
    }
  }

  lemma TouchBelow(h: Heap, i: nat)
    requires Inv(h) && i + 1 < |h.ring|
    ensures h.ring[i] in h.mem && h.ring[i + 1] in h.mem
    ensures Touches(h, i) <==> h.ring[i] + h.mem[h.ring[i]].size == h.ring[i + 1]
  {
    assert Link(h.mem, h.ring, i) && Link(h.mem, h.ring, i + 1);
  }

  /** What the header of bp becomes, and then the header of p. */
  ghost function MemAbove(mem: map<nat, Header>, bp: nat, nx: nat): map<nat, Header>
    requires bp in mem && nx in mem
  {
    mem[bp := if bp + mem[bp].size == nx then Header(mem[nx].ptr, mem[bp].size + mem[nx].size)
      else Header(nx, mem[bp].size)]
  }

  ghost function MemBelow(mem: map<nat, Header>, p: nat, bp: nat): map<nat, Header>
    requires bp in mem && p in mem
  {
    mem[p := if p + mem[p].size == bp then Header(mem[bp].ptr, mem[p].size + mem[bp].size) else Header(bp, mem[p].size)]
  }

  /** What free does to memory: the four cases of joining. */
  lemma FreedMem(h: Heap, i: nat, bp: nat)
    requires Inv(h) && Coalesced(h) && Fits(h.ring, i, bp) && bp in h.live && bp in h.mem && h.ring[i] in h.mem
    ensures h.mem[h.ring[i]].ptr == Succ(h.ring, i) && Succ(h.ring, i) in h.mem
    ensures Freed(h, i, bp).mem == MemBelow(MemAbove(h.mem, bp, Succ(h.ring, i)), h.ring[i], bp)
  {
    hide Inv, CoalescedBut, Touches;
    LiveFacts(h, bp);
    TouchAbove(h, i, bp);
    InsertKeeps(h, i, bp);
    InsertGaps(h, i, bp);
    var h1 := Insert(h, i, bp);
    JoinKeeps(h1, i + 1, i);
    var h2 := Join(h1, i + 1);
    JoinedNext(h1, i);
    TouchBelow(h2, i);
    var m1 := MemAbove(h.mem, bp, Succ(h.ring, i));
    assert h2.mem == m1[h.ring[i] := m1[h.ring[i]].(ptr := bp)];
  }

  lemma LiveFacts(h: Heap, bp: nat)
    requires Inv(h) && bp in h.live
    ensures bp in h.mem && bp > BASE && h.mem[bp].size > 0 && bp !in h.ring
  {
    LiveBlock(h, bp);
    assert bp !in FreeOf(h.ring);
  }

  lemma JoinedNext(h: Heap, i: nat)
    requires Inv(h) && i + 1 < |h.ring|
    ensures var h' := Join(h, i + 1); i + 1 < |h'.ring| && h'.ring[i] == h.ring[i] && h'.ring[i + 1] == h.ring[i + 1]
  {
    if Touches(h, i + 1) {
      MergeIndex(h.ring, i + 1);
    }
  }

  class Allocator {
    var h: Heap

    constructor ()
      ensures Fresh(h)
    {
      h := Heap(map[], 0, [], map[], map[]);
    }

    /** free's search loop: it ends, at the block after which bp belongs. */
    method Search(bp: nat) returns (p: nat, ghost k: nat)
      requires Inv(h) && bp in h.live
      ensures Fits(h.ring, k, bp) && p == h.ring[k] && p in h.mem
    {
      hide Tiled, Circular;
      LiveFacts(h, bp);
      p := h.freep;
      k :| k < |h.ring| && h.ring[k] == p;
      Linked(h.mem, h.ring, k);
      ghost var n := |h.ring|;
      ghost var t := PlaceOf(h.ring, bp, n);
      while !(bp > p && bp < h.mem[p].ptr)
        invariant k < n && p == h.ring[k] && p in h.mem && h.mem[p].ptr == Succ(h.ring, k)
        decreases Dist(n, k, t)
      {
        if p >= h.mem[p].ptr && (bp > p || bp < h.mem[p].ptr) {
          break;
        }
        StepDist(n, k, t);
        p := h.mem[p].ptr;
        k := Step(n, k);
        Linked(h.mem, h.ring, k);
      }
    }

    /** free: the block is returned and joined with the neighbours it touches. */
    method Free(ap: nat)
      requires Inv(h) && Coalesced(h) && ap > 0 && ap - 1 in h.live
      modifies this
      ensures Inv(h) && Coalesced(h) && h.live == old(h).live - {ap - 1} && h.tile.Keys == old(h).tile.Keys
      ensures HasFit(h, old(h).live[ap - 1]) && PayloadKept(old(h), h)
    {
      hide Inv, CoalescedBut, HasFit, Freed, Fits, PayloadKept;
      var bp := ap - 1;
      LiveFacts(h, bp);
      ghost var k;
      var p;
      p, k := Search(bp);
      FitsRange(h.ring, k, bp);
      FreedKeeps(h, k, bp);
      FreedFits(h, k, bp);
      FreedMem(h, k, bp);
      ghost var h' := Freed(h, k, bp);
      var mem := h.mem;
      var nx := mem[p].ptr;
      if bp + mem[bp].size == nx {
        mem := mem[bp := Header(mem[nx].ptr, mem[bp].size + mem[nx].size)];
      } else {
        mem := mem[bp := Header(nx, mem[bp].size)];
      }
      if p + mem[p].size == bp {
        mem := mem[p := Header(mem[bp].ptr, mem[p].size + mem[bp].size)];
      } else {
        mem := mem[p := Header(bp, mem[p].size)];
      }
      TwoStarts(h, h', bp, k);
      h := Heap(mem, p, h'.ring, h'.live, h'.tile);
      assert h == h';
    }

    /** morecore: sbrk's region, at least 4096 cells, is freed into the ring. */
    method Morecore(nu: nat, brk: Option<nat>) returns (p: nat)
      requires Inv(h) && Coalesced(h) && nu > 0 && (brk.Some? ==> Above(h, brk.value))
      requires Demand(nu) * UNIT < INT_MAX     // so that sbrk's int is the size of the region
      modifies this
      ensures Inv(h) && Coalesced(h) && h.live == old(h).live && PayloadKept(old(h), h)
      ensures p == 0 <==> brk == None
      ensures p == 0 ==> h == old(h)
      ensures p != 0 ==> p == h.freep && HasFit(h, nu)
      ensures p != 0 ==> h.tile.Keys == old(h).tile.Keys + Cells(brk.value, if nu < 4096 then 4096 else nu)
    {
      hide Inv, CoalescedBut, HasFit, Above, PayloadKept;
      SameHeap(h);
      var n := if nu < 4096 then 4096 else nu;
      if brk == None {
        return 0;
      }
      var b := brk.value;
      GrowKeeps(h, b, n);
      ghost var s := h;
      h := Heap(h.mem[b := Header(PtrAt(h.mem, b), n)], h.freep, h.ring, h.live[b := n], Extended(h.tile, b, n));
      assert h == Grown(s, b, n);
      ghost var g := h;
      GrownPayload(s, b, n);
      Free(b + 1);
      assert s.live[b := n] - {b} == s.live;
      PayloadTransitive(s, g, h);
      Smaller(h, n, nu);
      RingPositive(h);
      return h.freep;
    }

    /** The end of malloc: block p, which follows prevp, is taken whole or gives up its tail. */
    method Carve(prevp: nat, p: nat, nunits: nat, ghost i: nat) returns (r: nat)
      requires Inv(h) && Coalesced(h) && i + 1 < |h.ring| && prevp == h.ring[i] && p == h.ring[i + 1]
      requires p in h.mem && h.mem[p].size >= nunits > 0
      modifies this
      ensures Inv(h) && Coalesced(h) && h.tile.Keys == old(h).tile.Keys
      ensures r > 1 && r - 1 !in old(h).live && h.live == old(h).live[r - 1 := nunits] && h.freep == prevp
      ensures PayloadKept(old(h), h)
    {
      hide Inv, CoalescedBut, PayloadKept;
      ghost var s := h;
      UnlinkKeeps(s, i);
      RingBlock(s, i + 1);
      if h.mem[p].size == nunits {
        h := Heap(h.mem[prevp := h.mem[prevp].(ptr := h.mem[p].ptr)], prevp, h.ring[..i + 1] + h.ring[i + 2..],
          h.live[p := nunits], h.tile);
        assert h == Unlinked(s, i);
        StartsOnly(s, h, prevp, p);
        return p + 1;
      }
      SplitKeeps(s, i + 1, nunits);
      var mem := h.mem[p := h.mem[p].(size := h.mem[p].size - nunits)];
      var q := p + mem[p].size;
      mem := mem[q := Header(PtrAt(h.mem, q), nunits)];
      h := Heap(mem, prevp, h.ring, h.live[q := nunits], Carved(h.tile, p, q));
      assert h == Split(s, i + 1, nunits);
      TailOnly(s, h, p, q);
      return q + 1;
    }

    /**
      malloc: a block with room for nbytes beside its header, disjoint from every other block
      because the blocks tile the arena.  The scan ends; sbrk is called at most once, and only
      when no free block was large enough.  0 exactly when sbrk was needed and failed.
     */
    method Malloc(nbytes: nat, brk: Option<nat>) returns (r: nat, ghost grew: bool)
      requires Fresh(h) || (Inv(h) && Coalesced(h))
      requires nbytes < 0x1_0000_0000 && (brk.Some? ==> Above(h, brk.value))
      requires HasFit(h, Units(nbytes)) || FitsInt(nbytes)
      modifies this
      ensures Inv(h) && Coalesced(h)
      ensures grew <==> !HasFit(old(h), Units(nbytes)) && brk.Some?
      ensures r == 0 <==> !HasFit(old(h), Units(nbytes)) && brk == None
      ensures r == 0 ==> h.live == old(h).live && h.tile == old(h).tile
      ensures r != 0 ==> r > 1 && r - 1 !in old(h).live && h.live == old(h).live[r - 1 := Units(nbytes)]
      ensures h.tile.Keys == old(h).tile.Keys + if grew then Cells(brk.value, Demand(Units(nbytes))) else {}
      ensures PayloadKept(old(h), h)
    {
      hide Inv, CoalescedBut, HasFit, FitsAt, Above, Ahead, PayloadKept;
      var nunits := Units(nbytes);
      if h.freep == 0 {
        FreshFacts(h, nunits, brk);
        h := Heap(h.mem[BASE := Header(BASE, 0)], BASE, [BASE], h.live, h.tile);
      } else {
        NotFresh(h);
      }
      NoLive(old(h), h);
      ghost var s := h;
      SameHeap(s);
      ghost var f: nat := Place(h);
      ghost var i: nat := f;
      var prevp := h.freep;
      RingAt(h, i);
      var p := h.mem[prevp].ptr;
      ghost var k: nat := Step(|h.ring|, i);
      RingAt(h, k);
      AheadStart(h, f, nunits);
      grew := false;
      while true
        invariant Inv(h) && Coalesced(h) && f < |h.ring| && h.ring[f] == h.freep && i < |h.ring| && prevp == h.ring[i]
        invariant k == Step(|h.ring|, i) && p == h.ring[k] && p in h.mem && h.mem[p].ptr == Succ(h.ring, k)
        invariant Ahead(h, k, f, nunits) && (grew ==> HasFit(h, nunits)) && (!grew ==> h == s)
        invariant PayloadKept(s, h) && h.live == s.live && (grew ==> brk.Some? && !HasFit(s, nunits))
        invariant h.tile.Keys == s.tile.Keys + if grew then Cells(brk.value, Demand(nunits)) else {}
        decreases !grew, Dist(|h.ring|, k, f)
      {
        if h.mem[p].size >= nunits {
          SizeFits(h, k, nunits);
          NotBase(h, k, nunits);
          ghost var g := h;
          r := Carve(prevp, p, nunits, i);
          PayloadTransitive(s, g, h);
          PayloadTransitive(old(h), s, h);
          return;
        }
        SizeSmall(h, k, nunits);
        AheadStep(h, k, f, nunits);
        if p == h.freep {
          SamePlace(h, k, f);
          p := Morecore(nunits, brk);
          if p == 0 {
            PayloadTransitive(old(h), s, h);
            return 0, grew;
          }
          grew := true;
          f := Place(h);
          k := f;
          RingAt(h, k);
          AheadStart(h, f, nunits);
        }
        prevp := p;
        i := k;
        p := h.mem[p].ptr;
        k := Step(|h.ring|, k);
        RingAt(h, k);
      }
    }
  }

  const INT_MAX: nat := 0x8000_0000

  /** What a size becomes when it is passed as sbrk's int. */
  function AsInt(n: nat): int {
    var low := n % 0x1_0000_0000;
    if low < INT_MAX then low else low - 0x1_0000_0000
  }

  /** The region malloc would ask sbrk for is smaller than 2^31 bytes. */
  predicate FitsInt(nbytes: nat) {
    Demand(Units(nbytes)) * UNIT < INT_MAX
  }

  /** sbrk is asked for the region's size exactly for requests up to 2^31 - 32 bytes. */
  lemma IntExactly(nbytes: nat)
    requires nbytes < 0x1_0000_0000
    ensures FitsInt(nbytes) <==> nbytes <= 0x7fff_ffe0
    ensures FitsInt(nbytes) <==> AsInt(Demand(Units(nbytes)) * UNIT) == Demand(Units(nbytes)) * UNIT
  {
  }

  /** The largest request asks sbrk for 16 bytes and takes them for 2^28 + 1 cells. */
  lemma LargestRequest()
    ensures AsInt(Demand(Units(0xffff_ffff)) * UNIT) == 16 && Demand(Units(0xffff_ffff)) == 0x1000_0001
  {
  }

  /** The payload cells of every block that stays live are untouched. */
  ghost predicate PayloadKept(h: Heap, h': Heap) {
    forall a, u: nat | a in h.live && a in h'.live && a < u < a + h.live[a] :: SameCell(h, h', u)
  }

  ghost predicate SameCell(h: Heap, h': Heap, u: nat) {
    (u in h'.mem <==> u in h.mem) && (u in h.mem ==> h'.mem[u] == h.mem[u])
  }

  lemma SameHeap(h: Heap)
    ensures PayloadKept(h, h)
  {
  }

  lemma PayloadTransitive(a: Heap, b: Heap, c: Heap)
    requires PayloadKept(a, b) && PayloadKept(b, c)
    requires forall x | x in a.live && x in c.live :: x in b.live && b.live[x] == a.live[x]
    ensures PayloadKept(a, c)
  {
    forall x, u: nat | x in a.live && x in c.live && x < u < x + a.live[x] ensures SameCell(a, c, u) {
      assert SameCell(a, b, u) && SameCell(b, c, u);
    }
  }

  lemma NoLive(h: Heap, h': Heap)
    requires h.live == map[] || h' == h
    ensures PayloadKept(h, h')
  {
  }

  /** A cell at which a block starts, or base, is no payload cell of a live block. */
  lemma StartNotPayload(h: Heap, a: nat, u: nat, p: nat)
    requires Inv(h) && a in h.live && a < u < a + h.live[a] && (p in h.ring || p in h.live)
    ensures u != p && u in h.tile && h.tile[u] == a
  {
    hide Circular;
    LiveBlock(h, a);
    if p in h.ring && p != BASE {
      assert p in FreeOf(h.ring);
    }
    assert p == BASE || Block(h.mem, h.tile, p);
    assert p != BASE ==> p in h.tile && h.tile[p] == p;
  }

  lemma StartsOnly(h: Heap, h': Heap, p: nat, q: nat)
    requires Inv(h) && (p in h.ring || p in h.live) && (q in h.ring || q in h.live)
    requires forall u | u != p && u != q :: SameCell(h, h', u)
    ensures PayloadKept(h, h')
  {
    hide Inv, SameCell;
    forall a, u: nat | a in h.live && a in h'.live && a < u < a + h.live[a] ensures SameCell(h, h', u) {
      StartNotPayload(h, a, u, p);
      StartNotPayload(h, a, u, q);
    }
  }

  lemma TwoStarts(h: Heap, h': Heap, bp: nat, i: nat)
    requires Inv(h) && bp in h.live && i < |h.ring| && bp in h.mem && h.ring[i] in h.mem && Succ(h.ring, i) in h.mem
    requires h'.mem == MemBelow(MemAbove(h.mem, bp, Succ(h.ring, i)), h.ring[i], bp)
    ensures PayloadKept(h, h')
  {
    hide Inv;
    StartsOnly(h, h', bp, h.ring[i]);
  }

  lemma TailOnly(h: Heap, h': Heap, p: nat, q: nat)
    requires Inv(h) && p in h.ring && p in h.mem && p != BASE && p <= q < p + h.mem[p].size
    requires forall u | u != p && u != q :: SameCell(h, h', u)
    ensures PayloadKept(h, h')
  {
    hide Circular, SameCell;
    assert p in FreeOf(h.ring);
    Middle(h.mem, h.tile, p, q);
    NotLive(h, p);
    forall a, u: nat | a in h.live && a in h'.live && a < u < a + h.live[a] ensures SameCell(h, h', u) {
      StartNotPayload(h, a, u, p);
    }
  }

  lemma GrownPayload(h: Heap, b: nat, nu: nat)
    requires Inv(h) && Above(h, b)
    ensures PayloadKept(h, Grown(h, b, nu))
  {
    hide Circular;
    forall a, u: nat | a in h.live && a in Grown(h, b, nu).live
      && a < u < a + h.live[a] ensures SameCell(h, Grown(h, b, nu), u) {
      LiveBlock(h, a);
      assert u in h.tile;
    }
  }

  /** A user who writes inside a block of its own does not disturb the allocator. */
  lemma UserWrite(h: Heap, a: nat, u: nat, word: Header)
    requires Inv(h) && Coalesced(h) && a in h.live && a < u < a + h.live[a]
    ensures var h' := h.(mem := h.mem[u := word]); Inv(h') && Coalesced(h')
  {
    var h' := h.(mem := h.mem[u := word]);
    forall p | p in h.ring || p in h.live ensures p != u {
      StartNotPayload(h, a, u, p);
    }
    UserTiled(h, a, u, word);
    hide Tiled;
    forall x: nat | x < |h.ring| ensures Link(h'.mem, h'.ring, x) {
      assert Link(h.mem, h.ring, x) && h.ring[x] in h.ring;
    }
    forall x: nat | 0 < x && x + 1 < |h.ring| ensures Gap(h'.mem, h'.ring, x) {
      assert Gap(h.mem, h.ring, x) && h.ring[x] in h.ring;
    }
    assert BASE in h.ring by { assert h.ring[0] == BASE; }
  }

  lemma UserTiled(h: Heap, a: nat, u: nat, word: Header)
    requires Inv(h) && forall p | p in h.ring || p in h.live :: p != u
    ensures Tiled(h.mem[u := word], h.tile, h.live, FreeOf(h.ring))
  {
    hide Circular;
    var mem := h.mem[u := word];
    forall p | p in FreeOf(h.ring) || p in h.live ensures Block(mem, h.tile, p) {
      assert Block(h.mem, h.tile, p);
    }
  }

  /** Header included, in cells. */
  function Units(nbytes: nat): (n: nat)
    ensures n > 0 && nbytes <= (n - 1) * UNIT < nbytes + UNIT
  {
    (nbytes + UNIT - 1) / UNIT + 1
  }

  /** morecore asks for at least 4096 cells. */
  function Demand(nu: nat): (r: nat)
    ensures r >= nu && r >= 4096 && (r == nu || r == 4096)
  {
    if nu < 4096 then 4096 else nu
  }

  lemma Smaller(h: Heap, n: nat, nu: nat)
    requires HasFit(h, n) && nu <= n
    ensures HasFit(h, nu)
  {
    var j: nat :| j < |h.ring| && FitsAt(h, j, n);
    assert FitsAt(h, j, nu);
  }

  lemma RingBlock(h: Heap, j: nat)
    requires Inv(h) && 0 < j < |h.ring|
    ensures h.ring[j] > BASE
  {
  }

  lemma FreshFacts(h: Heap, n: nat, brk: Option<nat>)
    requires (Fresh(h) || Inv(h)) && h.freep == 0 && n > 0 && (brk.Some? ==> Above(h, brk.value))
    ensures Fresh(h)
    ensures var h' := Heap(h.mem[BASE := Header(BASE, 0)], BASE, [BASE], h.live, h.tile);
            Inv(h') && Coalesced(h') && !HasFit(h, n) && !HasFit(h', n) && (brk.Some? ==> Above(h', brk.value))
  {
    if Inv(h) {
      RingPositive(h);
    }
    FreshInit(h);
  }

  lemma NotFresh(h: Heap)
    requires Fresh(h) || Inv(h)
    requires h.freep != 0
    ensures Inv(h)
  {
  }

  lemma Place(h: Heap) returns (k: nat)
    requires Inv(h)
    ensures k < |h.ring| && h.ring[k] == h.freep
  {
    k :| k < |h.ring| && h.ring[k] == h.freep;
  }

  lemma RingAt(h: Heap, k: nat)
    requires Inv(h) && k < |h.ring|
    ensures h.ring[k] in h.mem && h.mem[h.ring[k]].ptr == Succ(h.ring, k) == h.ring[Step(|h.ring|, k)]
  {
    Linked(h.mem, h.ring, k);
  }

  lemma SizeFits(h: Heap, k: nat, n: nat)
    requires k < |h.ring| && h.ring[k] in h.mem && h.mem[h.ring[k]].size >= n
    ensures FitsAt(h, k, n) && HasFit(h, n)
  {
    assert FitsAt(h, k, n);
  }

  lemma SizeSmall(h: Heap, k: nat, n: nat)
    requires k < |h.ring| && h.ring[k] in h.mem && h.mem[h.ring[k]].size < n
    ensures !FitsAt(h, k, n)
  {
  }

  lemma SamePlace(h: Heap, k: nat, f: nat)
    requires Inv(h) && k < |h.ring| && f < |h.ring| && h.ring[k] == h.ring[f]
    ensures k == f
  {
    hide Tiled;
  }

  /** Every block that is large enough lies ahead on the walk from k round to f. */
  ghost predicate Ahead(h: Heap, k: nat, f: nat, n: nat)
    requires k < |h.ring| && f < |h.ring|
  {
    forall x: nat | x < |h.ring| && FitsAt(h, x, n) :: Dist(|h.ring|, k, x) <= Dist(|h.ring|, k, f)
  }

  lemma AheadStep(h: Heap, k: nat, f: nat, n: nat)
    requires k < |h.ring| && f < |h.ring| && Ahead(h, k, f, n) && !FitsAt(h, k, n)
    ensures k != f ==>
              Ahead(h, Step(|h.ring|, k), f, n) && Dist(|h.ring|, Step(|h.ring|, k), f) == Dist(|h.ring|, k, f) - 1
    ensures k == f ==> !HasFit(h, n)
  {
    forall x: nat | x < |h.ring| && FitsAt(h, x, n) ensures k != f
      && Dist(|h.ring|, Step(|h.ring|, k), x) <= Dist(|h.ring|, Step(|h.ring|, k), f) {
      StepDist(|h.ring|, k, x);
      StepDist(|h.ring|, k, f);
    }
    StepDist(|h.ring|, k, f);
  }

  lemma AheadStart(h: Heap, f: nat, n: nat)
    requires f < |h.ring|
    ensures Ahead(h, Step(|h.ring|, f), f, n)
  {
    StepDist(|h.ring|, f, f);
  }

  lemma FreshInit(h: Heap)
    requires Fresh(h)
    ensures var h' := Heap(h.mem[BASE := Header(BASE, 0)], BASE, [BASE], h.live, h.tile); Inv(h') && Coalesced(h')
  {
    var h' := Heap(h.mem[BASE := Header(BASE, 0)], BASE, [BASE], h.live, h.tile);
    assert Link(h'.mem, h'.ring, 0);
  }

  lemma RingPositive(h: Heap)
    requires Inv(h)
    ensures h.freep != 0 && forall a | a in h.ring :: a >= BASE
  {
    hide Tiled;
  }

  /** The header of base is never large enough, so a block that is large enough is not base. */
  lemma NotBase(h: Heap, k: nat, n: nat)
    requires Inv(h) && k < |h.ring| && FitsAt(h, k, n) && n > 0
    ensures k > 0
  {
  }

  lemma FitsRange(ring: seq<nat>, k: nat, bp: nat)
    requires Fits(ring, k, bp)
    ensures k < |ring| && ring[k] < bp
  {
  }

  /** Before the first call. */
  ghost predicate Fresh(h: Heap) {
    h.freep == 0 && h.ring == [] && h.live == map[] && h.tile == map[]
  }
}
