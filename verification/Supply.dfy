/**
  How much memory an operation needs: the places of a tree where a page-table page exists,
  those that mapping a range of pages requires, and the free pages that this takes.
 */
module Supply {
  import opened Prelude
  import opened Sv39
  import opened Kalloc
  import opened PageTable

  /** The level and position of a page-table page. */
  datatype Spot = Spot(level: nat, prefix: nat)

  /** Where the tree of r has page-table pages. */
  ghost function Spots(s: Memory, r: nat): set<Spot> {
    set t | t in s.role && s.role[t].Table? && s.role[t].root == r :: Spot(s.role[t].level, s.role[t].prefix)
  }

  /** The two page-table pages on the way to page v below the root. */
  function Path(v: nat): set<Spot> { {Spot(1, v / 262144), Spot(0, v / 512)} }

  /** Those on the way to any of the pages lo..hi. */
  ghost function PathsTo(lo: nat, hi: nat): set<Spot> {
    set v: nat, p | lo <= v < hi && p in Path(v) :: p
  }

  /** The page-table pages that the tree of r lacks for pages lo..hi. */
  ghost function Lacking(s: Memory, r: nat, lo: nat, hi: nat): nat {
    |PathsTo(lo, hi) - Spots(s, r)|
  }

  /** The tree of r has gained page-table pages, all within `room`, each taken from the free list. */
  ghost predicate Charged(s: Memory, s': Memory, r: nat, room: set<Spot>) {
    && Spots(s, r) <= Spots(s', r) && Spots(s', r) - Spots(s, r) <= room
    && |s'.freelist| + |Spots(s', r) - Spots(s, r)| == |s.freelist|
  }

  lemma ChargedNothing(s: Memory, s': Memory, r: nat, room: set<Spot>)
    requires Spots(s', r) == Spots(s, r) && |s'.freelist| == |s.freelist|
    ensures Charged(s, s', r, room)
  {
    assert Spots(s', r) - Spots(s, r) == {};
  }

  lemma ChargedTransitive(a: Memory, b: Memory, c: Memory, r: nat, room: set<Spot>)
    requires Charged(a, b, r, room) && Charged(b, c, r, room)
    ensures Charged(a, c, r, room)
  {
    hide Spots;
    var x, y := Spots(b, r) - Spots(a, r), Spots(c, r) - Spots(b, r);
    assert Spots(c, r) - Spots(a, r) == x + y && x !! y;
  }

  lemma ChargedWiden(a: Memory, b: Memory, r: nat, room: set<Spot>, more: set<Spot>)
    requires Charged(a, b, r, room) && room <= more
    ensures Charged(a, b, r, more)
  {
  }

  lemma ChargedNone(a: Memory, b: Memory, r: nat, room: set<Spot>)
    requires Charged(a, b, r, room) && room <= Spots(a, r)
    ensures Spots(b, r) == Spots(a, r) && |b.freelist| == |a.freelist|
  {
    hide Spots;
    assert Spots(b, r) - Spots(a, r) == {};
  }

  /** What was taken from the free list is no longer lacking. */
  lemma ChargedLacking(s: Memory, s': Memory, r: nat, lo: nat, hi: nat)
    requires Charged(s, s', r, PathsTo(lo, hi))
    ensures |s'.freelist| - Lacking(s', r, lo, hi) == |s.freelist| - Lacking(s, r, lo, hi)
  {
    hide Spots, PathsTo;
    var all, before, after := PathsTo(lo, hi), Spots(s, r), Spots(s', r);
    assert all - before == (all - after) + (after - before) && (all - after) !! (after - before);
  }

  lemma PathWithin(v: nat, lo: nat, hi: nat)
    requires lo <= v < hi
    ensures Path(v) <= PathsTo(lo, hi)
  {
  }

  /** A page-table page exists exactly where walk finds one. */
  lemma LeafSpot(s: Memory, r: nat, v: nat)
    requires TreeInv(s) && IsRoot(s, r) && v < MAX_VPN
    ensures Leaf(s, r, v).Some? <==> Spot(0, v / 512) in Spots(s, r)
    ensures Leaf(s, r, v).Some? ==> Path(v) <= Spots(s, r)
  {
    hide Linked, Leaf;
    PathRoles(s, r, v);
    if Leaf(s, r, v).Some? {
      var t, m := Leaf(s, r, v).value, Mid(s, r, v).value;
      assert t in s.role && m in s.role;
      assert Spot(s.role[t].level, s.role[t].prefix) in Spots(s, r)
        && Spot(s.role[m].level, s.role[m].prefix) in Spots(s, r);
    }
    if Spot(0, v / 512) in Spots(s, r) {
      var t :| t in s.role && s.role[t].Table? && s.role[t].root == r
        && Spot(s.role[t].level, s.role[t].prefix) == Spot(0, v / 512);
      LeafOfTable(s, t, v % 512);
    }
  }

  /** Without a level-0 page for page v something is lacking. */
  lemma LeafLacking(s: Memory, r: nat, v: nat, lo: nat, hi: nat)
    requires TreeInv(s) && IsRoot(s, r) && lo <= v < hi && v < MAX_VPN && Leaf(s, r, v).None?
    ensures Lacking(s, r, lo, hi) > 0
  {
    hide Leaf, Linked, Spots, PathsTo;
    LeafSpot(s, r, v);
    PathWithin(v, lo, hi);
    assert Spot(0, v / 512) in PathsTo(lo, hi) - Spots(s, r);
  }

  /** A range that is mapped lacks nothing. */
  lemma NothingLacking(s: Memory, r: nat, lo: nat, hi: nat)
    requires TreeInv(s) && IsRoot(s, r) && hi <= MAX_VPN && forall v: nat | lo <= v < hi :: Leaf(s, r, v).Some?
    ensures Lacking(s, r, lo, hi) == 0
  {
    hide Leaf, Linked, Spots;
    forall p | p in PathsTo(lo, hi) ensures p in Spots(s, r) {
      var v: nat :| lo <= v < hi && p in Path(v);
      LeafSpot(s, r, v);
    }
    assert PathsTo(lo, hi) - Spots(s, r) == {};
  }
}
