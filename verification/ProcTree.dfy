/**
  The page-table tree of a process: built by proc_pagetable beside the existing
  trees, undone when memory runs out (kernel/proc.c, kernel/vm.c: uvmcreate).
 */
module ProcTree {
  import opened Prelude
  import opened Sv39
  import opened Kalloc
  import opened PageTable
  import opened Supply
  import opened PageWalk
  import opened Cow
  import opened Vm
  import opened VmCopy
  import opened TreeLife

  function TrapframePte(ppn: nat): Pte { Pte(true, true, true, false, false, false, ppn) }
  function TrampolinePte(ppn: nat): Pte { Pte(true, true, false, true, false, false, ppn) }

  // ---------------------------------------------------------------------
  // Memory in which one more tree is being built, or is gone again

  /** s is s0 with a tree r added, as far as the processes of s0 can tell. */
  ghost predicate Beside(s0: Memory, s: Memory, r: nat) {
    && VmInv(s0) && VmInv(s) && s.lo == s0.lo && s.hi == s0.hi && s.role.Keys == s0.role.Keys
    && !IsRoot(s0, r) && (forall q :: IsRoot(s, q) <==> IsRoot(s0, q) || q == r)
    && (forall q, v: nat | IsRoot(s0, q) && v < MAX_VPN :: Alike(s0, s, q, v))
    && (forall p | p in s0.role ::
          if Loose(s0.role[p]) then Loose(s.role[p]) || (s.role[p].Table? && s.role[p].root == r)
          else s.role[p] == s0.role[p] && !(s.role[p].Table? && s.role[p].root == r))
  }

  /** s and s0 have the same processes, seeing the same memory. */
  ghost predicate Apart(s0: Memory, s: Memory) {
    && VmInv(s0) && VmInv(s) && s.lo == s0.lo && s.hi == s0.hi && s.role.Keys == s0.role.Keys
    && (forall q :: IsRoot(s, q) <==> IsRoot(s0, q))
    && (forall q, v: nat | IsRoot(s0, q) && v < MAX_VPN :: Alike(s0, s, q, v))
    && (forall p | p in s0.role ::
          if Loose(s0.role[p]) then Loose(s.role[p]) else s.role[p] == s0.role[p])
  }

  lemma BesideStep(s0: Memory, a: Memory, b: Memory, r: nat, lo: nat, hi: nat)
    requires Beside(s0, a, r) && Step(a, b, r, lo, hi)
    ensures Beside(s0, b, r)
  {
    hide Linked, AllocInv, Entry, Leaf, LeavesOk, RefsOk, Injective, Sees;
    forall q, v: nat | IsRoot(s0, q) && v < MAX_VPN ensures Alike(s0, b, q, v) {
      assert Alike(s0, a, q, v) && Alike(a, b, q, v);
    }
    assert forall p :: p in a.role <==> p in s0.role;
  }

  lemma BesideGone(s0: Memory, a: Memory, b: Memory, r: nat)
    requires Beside(s0, a, r) && TreeGone(a, b, r)
    ensures Apart(s0, b)
  {
    hide Linked, AllocInv, Entry, Leaf, LeavesOk, RefsOk, Injective, Sees;
    forall q, v: nat | IsRoot(s0, q) && v < MAX_VPN ensures Alike(s0, b, q, v) {
      assert Alike(s0, a, q, v) && Alike(a, b, q, v);
    }
    assert forall p :: p in a.role <==> p in s0.role;
  }

  lemma ApartNull(s: Memory)
    requires VmInv(s)
    ensures Apart(s, s.(refcnt := s.refcnt[0 := 1]))
  {
    NullStep(s, 0);
    hide Linked, AllocInv, Entry, Leaf, LeavesOk, RefsOk, Injective, Sees;
  }

  /** uvmcreate: the empty tree stands beside the existing ones. */
  lemma BesidePlanted(s: Memory)
    requires VmInv(s) && s.freelist != []
    ensures var c := s.freelist[0];
            var s' := Planted(Zeroed(s, Held), c);
            Beside(s, s', c) && HeldSame(s, s') && Cleared(s', c, 0, MAX_VPN)
  {
    hide Linked, ListInv, Entry, Leaf, LeavesOk, RefsOk, Injective, Sees;
    var c := s.freelist[0];
    FirstFree(s);
    TakenStep(s, 0);
    var t := Taken(s, Held);
    HeldWriteStep(t, c, Filled(0), FilledTable(0), 0);
    var z := Zeroed(s, Held);
    StepTransitive(s, t, z, 0, 0, 0);
    PlantedShape(z, c);
    PlantedInv(z, c);
    PlantedAlike(z, c);
    var s' := Planted(z, c);
    NoTableOfFresh(s, c);
    forall q, v: nat | IsRoot(s, q) && v < MAX_VPN ensures Alike(s, s', q, v) {
      assert Alike(s, z, q, v) && Alike(z, s', q, v);
    }
  }

  /** No table page can name a page that is not a table as its root. */
  lemma NoTableOfFresh(s: Memory, c: nat)
    requires TreeInv(s) && c in s.role && !s.role[c].Table?
    ensures forall p | p in s.role && s.role[p].Table? :: s.role[p].root != c
  {
    forall p | p in s.role && s.role[p].Table? ensures s.role[p].root != c {
      assert IsTable(s, p) && Up(s, p);
      if s.role[p].level < 2 {
        var a := s.role[p].parent;
        assert Up(s, a);
        if s.role[a].level < 2 { assert Up(s, s.role[a].parent); }
      }
    }
  }

  // ---------------------------------------------------------------------
  // Building and releasing the tree of a process

  /** mappages for the trampoline or the trapframe page. */
  method MapHigh(m: Machine, r: nat, v: nat, e: Pte) returns (ok: bool)
    requires VmInv(m.mem) && IsRoot(m.mem, r) && TRAPFRAME_VPN <= v < MAX_VPN && !Entry(m.mem, r, v).v
    requires e.v && e.r && !(e.w && e.cow)
    modifies m`mem
    ensures HeldSame(old(m.mem), m.mem)
    ensures ok ==> Step(old(m.mem), m.mem, r, v, v + 1) && Entry(m.mem, r, v) == e
    ensures !ok ==> Step(old(m.mem), m.mem, r, 0, 0) && old(Leaf(m.mem, r, v)).None? && |old(m.mem).freelist| < 2
    ensures ok ==> Charged(old(m.mem), m.mem, r, Path(v)) && Path(v) <= Spots(m.mem, r)
  {
    hide Linked, AllocInv, Entry, Leaf, LeavesOk, RefsOk, Injective, Grown, Sees, SameOutside, Charged, Spots, Path,
      HeldSame, Kept;
    ghost var s := m.mem;
    ghost var g;
    ok, g := MapPage(m, r, v, e.ppn, e);
    if ok {
      HighCharged(s, g, r, v, e);
    } else {
      HighRefused(s, g, r, v);
    }
    GrownStep(s, g, r);
    GrownHeld(s, g, r);
    if ok {
      HighStep(g, r, v, e);
      StepWiden(s, g, r, 0, 0, v, v + 1);
      StepTransitive(s, g, m.mem, r, v, v + 1);
    }
  }

  lemma HighCharged(s: Memory, g: Memory, r: nat, v: nat, e: Pte)
    requires Charged(s, g, r, Path(v)) && AllocInv(g) && TreeInv(g) && IsRoot(g, r) && v < MAX_VPN
    requires Leaf(g, r, v).Some?
    ensures Charged(s, Put(g, r, v, e), r, Path(v)) && Path(v) <= Spots(Put(g, r, v, e), r)
    ensures HeldSame(s, g) ==> HeldSame(s, Put(g, r, v, e))
  {
    hide Linked, AllocInv, Leaf, Path;
    LeafSpot(g, r, v);
    SpotsSame(g, Put(g, r, v, e), r, Path(v));
    ChargedTransitive(s, g, Put(g, r, v, e), r, Path(v));
  }

  lemma HighRefused(s: Memory, g: Memory, r: nat, v: nat)
    requires Charged(s, g, r, Path(v)) && TreeInv(g) && IsRoot(g, r) && v < MAX_VPN && Leaf(g, r, v).None?
    requires g.freelist == []
    ensures |s.freelist| < 2
  {
    hide Linked, Leaf, Spots;
    LeafSpot(g, r, v);
    SubsetSize(Spots(g, r) - Spots(s, r), {Spot(1, v / 262144)});
  }

  /** The page-table pages of a tree that maps nothing but trampoline and trapframe. */
  function TopSpots(): set<Spot> { {Spot(2, 0)} + Path(TRAMPOLINE_VPN) }

  lemma PlantedSpots(s: Memory)
    requires VmInv(s) && s.freelist != []
    ensures Spots(Planted(Zeroed(s, Held), s.freelist[0]), s.freelist[0]) == {Spot(2, 0)}
  {
    hide Linked, ListInv, Entry, Leaf, LeavesOk, RefsOk, Injective;
    FirstFree(s);
    var c := s.freelist[0];
    var s' := Planted(Zeroed(s, Held), c);
    NoTableOfFresh(s, c);
    assert c in s'.role;
  }

  lemma TopCharged(a: Memory, b: Memory, r: nat)
    requires Spots(a, r) == {Spot(2, 0)} && Charged(a, b, r, Path(TRAMPOLINE_VPN))
    requires Path(TRAMPOLINE_VPN) <= Spots(b, r)
    ensures Spots(b, r) == TopSpots() && |b.freelist| == |a.freelist| - 2
  {
    hide Spots;
    assert Spots(b, r) - Spots(a, r) == Path(TRAMPOLINE_VPN);
  }

  /** The trapframe's page-table pages are the trampoline's. */
  lemma TrapframeLeaf(s: Memory, r: nat)
    requires TreeInv(s) && IsRoot(s, r) && Spots(s, r) == TopSpots()
    ensures Leaf(s, r, TRAPFRAME_VPN).Some? && Path(TRAPFRAME_VPN) <= Spots(s, r)
  {
    hide Linked, Leaf, Spots;
    LeafSpot(s, r, TRAPFRAME_VPN);
  }

  /** An empty tree, with nothing mapped. */
  method Uvmcreate(m: Machine) returns (r: nat)
    requires VmInv(m.mem)
    modifies m`mem
    ensures HeldSame(old(m.mem), m.mem)
    ensures r == 0 <==> old(m.mem).freelist == []
    ensures r == 0 ==> Apart(old(m.mem), m.mem)
    ensures r != 0 ==> Beside(old(m.mem), m.mem, r) && Cleared(m.mem, r, 0, MAX_VPN)
    ensures r != 0 ==> Spots(m.mem, r) == {Spot(2, 0)} && |m.mem.freelist| == |old(m.mem).freelist| - 1
  {
    hide Linked, ListInv, Entry, Leaf, LeavesOk, RefsOk, Injective, Sees, Apart, Alike, Spots;
    ghost var s := m.mem;
    r := m.Kalloc(Held);
    if r == 0 {
      ApartNull(s);
      return;
    }
    BesidePlanted(s);
    PlantedSpots(s);
    m.Memset(r, 0);
    m.mem := m.mem.(role := m.mem.role[r := Table(r, 2, 0, r)]);
    assert m.mem == Planted(Zeroed(s, Held), s.freelist[0]);
  }

  /** A process tree with no user memory: only the two supervisor pages. */
  ghost predicate FreshTree(s: Memory, r: nat, tf: nat, tramp: nat)
    requires Bounds(s) && r in s.role
  {
    && Cleared(s, r, 0, TRAPFRAME_VPN)
    && Entry(s, r, TRAPFRAME_VPN) == TrapframePte(tf) && Entry(s, r, TRAMPOLINE_VPN) == TrampolinePte(tramp)
  }

  method ProcPagetable(m: Machine, tf: nat) returns (r: nat)
    requires VmInv(m.mem)
    modifies m`mem
    ensures HeldSame(old(m.mem), m.mem)
    ensures r != 0 <==> |old(m.mem).freelist| >= 3
    ensures r == 0 ==> Apart(old(m.mem), m.mem)
    ensures r != 0 ==> Beside(old(m.mem), m.mem, r) && FreshTree(m.mem, r, tf, m.trampoline)
    ensures r != 0 ==> Spots(m.mem, r) == TopSpots() && |m.mem.freelist| == |old(m.mem).freelist| - 3
  {
    hide Linked, AllocInv, Entry, Leaf, LeavesOk, RefsOk, Injective, Sees, Apart, SameOutside, Alike, Spots, Charged,
      TopSpots, Path;
    ghost var s := m.mem;
    r := Uvmcreate(m);
    if r == 0 {
      return;
    }
    r := MapTrampoline(m, r, s);
    if r == 0 {
      return;
    }
    ghost var root, b := r, m.mem;
    TrapframeLeaf(m.mem, r);
    r := MapTrapframe(m, r, tf, s);
    ChargedNone(b, m.mem, root, Path(TRAPFRAME_VPN));
  }

  /** The first half of proc_pagetable: the trampoline page, or everything undone. */
  method MapTrampoline(m: Machine, root: nat, ghost s: Memory) returns (r: nat)
    requires Beside(s, m.mem, root) && HeldSame(s, m.mem) && root != 0 && Cleared(m.mem, root, 0, MAX_VPN)
    requires Spots(m.mem, root) == {Spot(2, 0)}
    modifies m`mem
    ensures HeldSame(s, m.mem)
    ensures r != 0 <==> |old(m.mem).freelist| >= 2
    ensures r == 0 ==> Apart(s, m.mem)
    ensures r != 0 ==> && r == root && Beside(s, m.mem, r) && Cleared(m.mem, root, 0, TRAMPOLINE_VPN)
                       && Entry(m.mem, root, TRAMPOLINE_VPN) == TrampolinePte(m.trampoline)
    ensures r != 0 ==> Spots(m.mem, r) == TopSpots() && |m.mem.freelist| == |old(m.mem).freelist| - 2
  {
    hide Linked, AllocInv, Entry, Leaf, LeavesOk, RefsOk, Injective, Sees, Apart, SameOutside, Alike, Spots, Charged,
      TopSpots, Path;
    r := root;
    ghost var a := m.mem;
    assert Entry(a, r, TRAMPOLINE_VPN) == ZERO_PTE && Entry(a, r, TRAPFRAME_VPN) == ZERO_PTE;
    var ok := MapHigh(m, r, TRAMPOLINE_VPN, TrampolinePte(m.trampoline));
    if !ok {
      BesideStep(s, a, m.mem, r, 0, 0);
      RangeFrame(a, m.mem, r, 0, 0, 0, MAX_VPN);
      ghost var b := m.mem;
      Uvmfree(m, r, 0);
      BesideGone(s, b, m.mem, r);
      return 0;
    }
    BesideStep(s, a, m.mem, r, TRAMPOLINE_VPN, MAX_VPN);
    RangeFrame(a, m.mem, r, TRAMPOLINE_VPN, MAX_VPN, 0, TRAMPOLINE_VPN);
    TopCharged(a, m.mem, r);
  }

  /** The second half of proc_pagetable: the trapframe page, or everything undone. */
  method MapTrapframe(m: Machine, root: nat, tf: nat, ghost s: Memory) returns (r: nat)
    requires Beside(s, m.mem, root) && HeldSame(s, m.mem) && root != 0 && Cleared(m.mem, root, 0, TRAMPOLINE_VPN)
    requires Entry(m.mem, root, TRAMPOLINE_VPN) == TrampolinePte(m.trampoline)
    modifies m`mem
    ensures HeldSame(s, m.mem)
    ensures r == 0 ==> Apart(s, m.mem) && old(Leaf(m.mem, root, TRAPFRAME_VPN)).None?
    ensures r != 0 ==> r == root && Beside(s, m.mem, r) && FreshTree(m.mem, r, tf, m.trampoline)
    ensures r != 0 ==> Charged(old(m.mem), m.mem, r, Path(TRAPFRAME_VPN))
  {
    hide Linked, AllocInv, Entry, Leaf, LeavesOk, RefsOk, Injective, Sees, Apart, SameOutside, Spots, Charged, Path;
    r := root;
    ghost var a := m.mem;
    assert Entry(a, r, TRAPFRAME_VPN) == ZERO_PTE;
    var ok := MapHigh(m, r, TRAPFRAME_VPN, TrapframePte(tf));
    if !ok {
      BesideStep(s, a, m.mem, r, 0, 0);
      RangeFrame(a, m.mem, r, 0, 0, 0, TRAMPOLINE_VPN);
      RangeFrame(a, m.mem, r, 0, 0, TRAMPOLINE_VPN, MAX_VPN);
      ghost var b := m.mem;
      Uvmunmap(m, r, TRAMPOLINE_VPN, 1, false);
      RangeFrame(b, m.mem, r, TRAMPOLINE_VPN, MAX_VPN, 0, TRAMPOLINE_VPN);
      BesideStep(s, b, m.mem, r, TRAMPOLINE_VPN, MAX_VPN);
      ghost var c := m.mem;
      Uvmfree(m, r, 0);
      BesideGone(s, c, m.mem, r);
      return 0;
    }
    BesideStep(s, a, m.mem, r, TRAPFRAME_VPN, TRAMPOLINE_VPN);
    RangeFrame(a, m.mem, r, TRAPFRAME_VPN, TRAMPOLINE_VPN, 0, TRAPFRAME_VPN);
    HighEntryFrame(a, m.mem, r, TRAPFRAME_VPN, TRAMPOLINE_VPN);
  }

  lemma HighEntryFrame(a: Memory, b: Memory, r: nat, lo: nat, hi: nat)
    requires Step(a, b, r, lo, hi) && IsRoot(a, r)
    ensures IsRoot(b, r)
    ensures hi <= TRAMPOLINE_VPN ==> Entry(b, r, TRAMPOLINE_VPN) == Entry(a, r, TRAMPOLINE_VPN)
    ensures hi <= TRAPFRAME_VPN ==> Entry(b, r, TRAPFRAME_VPN) == Entry(a, r, TRAPFRAME_VPN)
  {
    hide Linked, AllocInv, Entry, Leaf, LeavesOk, RefsOk, Injective, Sees;
    if hi <= TRAMPOLINE_VPN { assert Alike(a, b, r, TRAMPOLINE_VPN); }
    if hi <= TRAPFRAME_VPN { assert Alike(a, b, r, TRAPFRAME_VPN); }
  }
}
